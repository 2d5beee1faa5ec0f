/** Proleptic Gregorian dates, the ISO weekday and the ISO 8601 week calendar
    (section 3.2.2 of ISO 8601:2004), as PHP's DateTime formats them with
    'Y-m-d', 'N', 'o' and 'W'.

    A DateTime at midnight is modelled by its day number (`Day`): the number
    of days since 0001-01-01. Adding or subtracting an interval of n days
    adds or subtracts n, and DateTimes compare as their day numbers do. A
    'Y-m-d' string is modelled by a `Date` triple; `ToDay` parses it and
    `ToDate` formats a day number back. */
module Dates {

  /** A day, as the number of days since 0001-01-01 (day 0, a Monday). */
  type Day = int

  /** A 'Y-m-d' calendar date. */
  datatype Date = Date(year: int, month: int, day: int)

  predicate IsLeapYear(y: int) {
    y % 4 == 0 && (y % 100 != 0 || y % 400 == 0)
  }

  function DaysInYear(y: int): int {
    if IsLeapYear(y) then 366 else 365
  }

  function DaysInMonth(y: int, m: int): (n: int)
    requires 1 <= m <= 12
    ensures 28 <= n <= 31
  {
    if m == 2 then (if IsLeapYear(y) then 29 else 28)
    else if m == 4 || m == 6 || m == 9 || m == 11 then 30
    else 31
  }

  /** A date of year 1 or later that exists in the proleptic Gregorian calendar. */
  predicate ValidDate(d: Date) {
    1 <= d.year && 1 <= d.month <= 12 && 1 <= d.day <= DaysInMonth(d.year, d.month)
  }

  /** Days of year y that come before the first of month m. */
  function DaysBeforeMonth(y: int, m: int): (r: int)
    requires 1 <= m <= 12
    ensures 0 <= r <= 31 * (m - 1)
  {
    if m == 1 then 0 else DaysBeforeMonth(y, m - 1) + DaysInMonth(y, m - 1)
  }

  /** The day number of 1 January of year y. */
  function DaysBeforeYear(y: int): (n: Day)
    requires 1 <= y
    ensures 365 * (y - 1) <= n
  {
    if y == 1 then 0 else DaysBeforeYear(y - 1) + DaysInYear(y - 1)
  }

  /** new DateTime('Y-m-d'): the day number of a date. */
  function ToDay(d: Date): Day
    requires ValidDate(d)
  {
    DaysBeforeYear(d.year) + DaysBeforeMonth(d.year, d.month) + d.day - 1
  }

  /** Days before the first of each month, as the month lengths add up. */
  lemma MonthStarts(y: int)
    ensures var leap := if IsLeapYear(y) then 1 else 0;
      DaysBeforeMonth(y, 2) == 31 && DaysBeforeMonth(y, 3) == 59 + leap &&
      DaysBeforeMonth(y, 4) == 90 + leap && DaysBeforeMonth(y, 5) == 120 + leap &&
      DaysBeforeMonth(y, 6) == 151 + leap && DaysBeforeMonth(y, 7) == 181 + leap &&
      DaysBeforeMonth(y, 8) == 212 + leap && DaysBeforeMonth(y, 9) == 243 + leap &&
      DaysBeforeMonth(y, 10) == 273 + leap && DaysBeforeMonth(y, 11) == 304 + leap &&
      DaysBeforeMonth(y, 12) == 334 + leap
  {
    var leap := if IsLeapYear(y) then 1 else 0;
    assert DaysBeforeMonth(y, 2) == 31;
    assert DaysBeforeMonth(y, 3) == 59 + leap;
    assert DaysBeforeMonth(y, 4) == 90 + leap;
    assert DaysBeforeMonth(y, 5) == 120 + leap;
    assert DaysBeforeMonth(y, 6) == 151 + leap;
    assert DaysBeforeMonth(y, 7) == 181 + leap;
    assert DaysBeforeMonth(y, 8) == 212 + leap;
    assert DaysBeforeMonth(y, 9) == 243 + leap;
    assert DaysBeforeMonth(y, 10) == 273 + leap;
    assert DaysBeforeMonth(y, 11) == 304 + leap;
  }

  lemma MonthStep(y: int, m: int)
    requires 1 <= m <= 12
    ensures m < 12 ==> DaysBeforeMonth(y, m) + DaysInMonth(y, m) == DaysBeforeMonth(y, m + 1)
    ensures m == 12 ==> DaysBeforeMonth(y, m) + DaysInMonth(y, m) == DaysInYear(y)
  {
    if m == 12 {
      MonthStarts(y);
    }
  }

  lemma YearStep(y: int)
    requires 1 <= y
    ensures DaysBeforeYear(y + 1) == DaysBeforeYear(y) + DaysInYear(y)
  {
  }

  lemma {:induction false} DaysBeforeYearMonotone(a: int, b: int)
    requires 1 <= a <= b
    ensures DaysBeforeYear(a) + 365 * (b - a) <= DaysBeforeYear(b)
    decreases b - a
  {
    if a < b {
      DaysBeforeYearMonotone(a, b - 1);
      YearStep(b - 1);
    }
  }

  lemma {:induction false} DaysBeforeMonthMonotone(y: int, a: int, b: int)
    requires 1 <= a < b <= 12
    ensures DaysBeforeMonth(y, a) + DaysInMonth(y, a) <= DaysBeforeMonth(y, b)
    decreases b - a
  {
    MonthStep(y, a);
    if a + 1 < b {
      DaysBeforeMonthMonotone(y, a + 1, b);
    }
  }

  /** A date's day number lies within its year. */
  lemma ToDayBounds(d: Date)
    requires ValidDate(d)
    ensures DaysBeforeYear(d.year) <= ToDay(d) < DaysBeforeYear(d.year + 1)
  {
    YearStep(d.year);
    if d.month < 12 {
      DaysBeforeMonthMonotone(d.year, d.month, 12);
    }
    MonthStep(d.year, 12);
  }

  /** Within one year, a later day never has an earlier month. */
  lemma MonthMonotone(a: Date, b: Date)
    requires ValidDate(a) && ValidDate(b) && a.year == b.year
    requires ToDay(a) <= ToDay(b)
    ensures a.month <= b.month
  {
    if a.month > b.month {
      DaysBeforeMonthMonotone(a.year, b.month, a.month);
    }
  }

  /** Each day number lies in exactly one year. */
  lemma YearUnique(n: Day, y1: int, y2: int)
    requires 1 <= y1 && 1 <= y2
    requires DaysBeforeYear(y1) <= n < DaysBeforeYear(y1 + 1)
    requires DaysBeforeYear(y2) <= n < DaysBeforeYear(y2 + 1)
    ensures y1 == y2
  {
    if y1 < y2 {
      DaysBeforeYearMonotone(y1 + 1, y2);
    } else if y2 < y1 {
      DaysBeforeYearMonotone(y2 + 1, y1);
    }
  }

  /** Distinct dates have distinct day numbers. */
  lemma ToDayInjective(a: Date, b: Date)
    requires ValidDate(a) && ValidDate(b)
    requires ToDay(a) == ToDay(b)
    ensures a == b
  {
    ToDayBounds(a);
    ToDayBounds(b);
    YearUnique(ToDay(a), a.year, b.year);
    MonthMonotone(a, b);
    MonthMonotone(b, a);
  }

  function YearUp(n: Day, y: int): (r: int)
    requires 1 <= y && DaysBeforeYear(y) <= n
    ensures y <= r && DaysBeforeYear(r) <= n < DaysBeforeYear(r + 1)
    decreases n - DaysBeforeYear(y)
  {
    YearStep(y);
    if n < DaysBeforeYear(y + 1) then y else YearUp(n, y + 1)
  }

  /** The calendar year day n falls in. */
  function YearOf(n: Day): (y: int)
    requires 0 <= n
    ensures 1 <= y && DaysBeforeYear(y) <= n < DaysBeforeYear(y + 1)
  {
    YearUp(n, 1)
  }

  /** The month of year y holding its r-th day (counted from 0), searching down from month m. */
  function MonthOf(y: int, r: int, m: int): (k: int)
    requires 1 <= y && 1 <= m <= 12 && 0 <= r < DaysBeforeMonth(y, m) + DaysInMonth(y, m)
    ensures 1 <= k <= m && DaysBeforeMonth(y, k) <= r < DaysBeforeMonth(y, k) + DaysInMonth(y, k)
  {
    if DaysBeforeMonth(y, m) <= r then m else MonthOf(y, r, m - 1)
  }

  /** format('Y-m-d'): the date of day n. */
  function ToDate(n: Day): Date
    requires 0 <= n
  {
    var y := YearOf(n);
    YearStep(y);
    MonthStep(y, 12);
    var m := MonthOf(y, n - DaysBeforeYear(y), 12);
    Date(y, m, n - DaysBeforeYear(y) - DaysBeforeMonth(y, m) + 1)
  }

  /** The formatted date exists and parses back to the day. */
  lemma ToDateSpec(n: Day)
    requires 0 <= n
    ensures ValidDate(ToDate(n)) && ToDay(ToDate(n)) == n
  {
    var y := YearOf(n);
    YearStep(y);
    MonthStep(y, 12);
  }

  /** Formatting the parsed date gives the date back. */
  lemma ToDateToDay(d: Date)
    requires ValidDate(d)
    ensures ToDate(ToDay(d)) == d
  {
    ToDayInjective(ToDate(ToDay(d)), d);
  }

  /** A day between the first days of year y and year y + 1 is formatted with year y. */
  lemma InYear(n: Day, y: int)
    requires 1 <= y && DaysBeforeYear(y) <= n < DaysBeforeYear(y + 1)
    ensures ToDate(n).year == y
  {
    var d := ToDate(n);
    ToDayBounds(d);
    YearUnique(n, d.year, y);
  }

  /** Days inside one month are numbered consecutively. */
  lemma DayInMonth(y: int, m: int, first: int, k: int)
    requires 1 <= y && 1 <= m <= 12 && 1 <= first && 0 <= k && first + k <= DaysInMonth(y, m)
    ensures ToDate(ToDay(Date(y, m, first)) + k) == Date(y, m, first + k)
  {
    ToDateToDay(Date(y, m, first + k));
  }

  /** The ISO 8601 weekday, format('N'): 1 is Monday, 7 is Sunday. */
  function Weekday(n: Day): (w: int)
    ensures 1 <= w <= 7
  {
    n % 7 + 1
  }

  /** Whole weeks later, the weekday is the same. */
  lemma WeekdayAfterWeeks(n: Day, k: int)
    ensures Weekday(n + 7 * k) == Weekday(n)
  {
  }

  /** The weekday k days after day n, counting round the week. */
  lemma WeekdayShift(n: Day, k: int)
    ensures Weekday(n + k) == (Weekday(n) - 1 + k) % 7 + 1
  {
    var b := Weekday(n) - 1 + k;
    assert n + k == 7 * (n / 7) + b;
    assert n + k == 7 * (n / 7 + b / 7) + b % 7;
  }

  /** Stepping forward within a week raises the weekday by the number of steps. */
  lemma WeekdayForward(n: Day, j: int)
    requires 0 <= j <= 7 - Weekday(n)
    ensures Weekday(n + j) == Weekday(n) + j
  {
    assert n == 7 * (n / 7) + (Weekday(n) - 1);
  }

  /** Stepping back within a week lowers the weekday by the number of steps. */
  lemma WeekdayBackward(n: Day, j: int)
    requires 0 <= j < Weekday(n)
    ensures Weekday(n - j) == Weekday(n) - j
  {
    assert n == 7 * (n / 7) + (Weekday(n) - 1);
  }

  /** The Thursday of the Monday-to-Sunday week of day n; it decides the ISO week. */
  function Thursday(n: Day): (t: Day)
    ensures Weekday(t) == 4 && n - 3 <= t <= n + 3
    ensures 0 <= n ==> 0 <= t
  {
    n - Weekday(n) + 4
  }

  /** The week of day n runs from the Monday three days before its Thursday. */
  lemma MondayOfWeek(n: Day)
    ensures Weekday(Thursday(n) - 3) == 1 && Thursday(n) - 3 <= n < Thursday(n) + 4
  {
    var q := n / 7;
    assert Thursday(n) - 3 == 7 * q;
  }

  /** The ISO week-numbering year, format('o'): the year of the week's Thursday. */
  function IsoYear(n: Day): int
    requires 0 <= n
  {
    YearOf(Thursday(n))
  }

  /** The ISO week number, format('W'): week 1 holds the year's first Thursday. */
  function IsoWeek(n: Day): (w: int)
    requires 0 <= n
    ensures 1 <= w <= 53
  {
    var t := Thursday(n);
    var y := YearOf(t);
    YearStep(y);
    (t - DaysBeforeYear(y)) / 7 + 1
  }

  /** 4 January always lies in week 1 of its own ISO year. */
  lemma FourthOfJanuaryInWeekOne(y: int)
    requires 1 <= y
    ensures IsoYear(ToDay(Date(y, 1, 4))) == y && IsoWeek(ToDay(Date(y, 1, 4))) == 1
  {
    var jan4 := ToDay(Date(y, 1, 4));
    var t := Thursday(jan4);
    YearStep(y);
    assert DaysBeforeYear(y) <= t < DaysBeforeYear(y + 1);
    YearUnique(t, y, YearOf(t));
  }

  /** 28 December always lies in ISO year y, so the year's last ISO week holds it. */
  lemma TwentyEighthOfDecemberInOwnYear(y: int)
    requires 1 <= y
    ensures IsoYear(ToDay(Date(y, 12, 28))) == y
  {
    var dec28 := ToDay(Date(y, 12, 28));
    var t := Thursday(dec28);
    YearStep(y);
    MonthStep(y, 12);
    assert DaysBeforeYear(y) <= t < DaysBeforeYear(y + 1);
    YearUnique(t, y, YearOf(t));
  }

  /** The leap day of year n, by inclusion and exclusion over 4, 100 and 400. */
  lemma LeapDay(n: int)
    ensures DaysInYear(n) - 365 ==
      (if n % 4 == 0 then 1 else 0) - (if n % 100 == 0 then 1 else 0) + (if n % 400 == 0 then 1 else 0)
  {
    if n % 400 == 0 {
      assert n == 400 * (n / 400) && n == 100 * (4 * (n / 400));
    }
    if n % 100 == 0 {
      assert n == 100 * (n / 100) && n == 4 * (25 * (n / 100));
    }
  }

  /** 1 January of year y, counted from day 0 in closed form: 365 days a year
      plus one leap day per fourth year, except centuries not divisible by 400. */
  lemma {:induction false} DaysBeforeYearFormula(y: int)
    requires 1 <= y
    ensures DaysBeforeYear(y) == 365 * (y - 1) + (y - 1) / 4 - (y - 1) / 100 + (y - 1) / 400
  {
    if y > 1 {
      DaysBeforeYearFormula(y - 1);
      var n := y - 1;
      assert n / 4 == (n - 1) / 4 + (if n % 4 == 0 then 1 else 0);
      assert n / 100 == (n - 1) / 100 + (if n % 100 == 0 then 1 else 0);
      assert n / 400 == (n - 1) / 400 + (if n % 400 == 0 then 1 else 0);
      LeapDay(y - 1);
    }
  }

  /** The epoch agrees with the calendar: 1 January 2024 was a Monday. */
  lemma EpochAnchor()
    ensures ToDay(Date(2024, 1, 1)) == 738885 && Weekday(738885) == 1
  {
    DaysBeforeYearFormula(2024);
  }
}
