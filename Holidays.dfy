/** The events the PdfCalendar constructor files: ten fixed dates
    (_addStaticEvents), eight Easter-relative feasts and four Sunday searches
    (_addDynamicEvents), and one optional anniversary (_addPrivateEvents). */
module Holidays {
  import opened Dates
  import opened Events

  const FirstChristmasDay := "1<sup>e</sup> Kerstdag"
  const SecondChristmasDay := "2<sup>e</sup> Kerstdag"
  const NewYearsDay := "Nieuwjaarsdag"
  const ValentinesDay := "Valentijnsdag"
  const KingsDay := "Koningsdag"
  const RemembranceDay := "Dodenherdenking"
  const LiberationDay := "Bevrijdingsdag"

  const CarnivalSunday := "Carnavalszondag"
  const AshWednesday := "Aswoensdag"
  const GoodFriday := "Goede vrijdag"
  const FirstEasterDay := "1<sup>e</sup> Paasdag"
  const SecondEasterDay := "2<sup>e</sup> Paasdag"
  const AscensionDay := "Hemelvaartsdag"
  const FirstPentecostDay := "1<sup>e</sup> Pinksterdag"
  const SecondPentecostDay := "2<sup>e</sup> Pinksterdag"
  const MothersDayName := "Moederdag"
  const FathersDayName := "Vaderdag"
  const SummerTimeName := "zomertijd (2:00 &rarr; 3:00)"
  const WinterTimeName := "wintertijd (3:00 &rarr; 2:00)"

  /** The first year whose calendar carries the anniversary. */
  const BirthYear := 1942

  /** _addStaticEvents: the fixed-date events, in call order. */
  function StaticEvents(year: int): seq<Event> {
    [ Event(Date(year - 1, 12, 25), FirstChristmasDay),
      Event(Date(year - 1, 12, 26), SecondChristmasDay),
      Event(Date(year, 1, 1), NewYearsDay),
      Event(Date(year, 2, 14), ValentinesDay),
      Event(Date(year, 4, 27), KingsDay),
      Event(Date(year, 5, 4), RemembranceDay),
      Event(Date(year, 5, 5), LiberationDay),
      Event(Date(year, 12, 25), FirstChristmasDay),
      Event(Date(year, 12, 26), SecondChristmasDay),
      Event(Date(year + 1, 1, 1), NewYearsDay) ]
  }

  /** _getEasterDatetime: 21 March plus easter_days(year) days. */
  function EasterSunday(year: int, easterDays: nat): Day
    requires 1 <= year
  {
    ToDay(Date(year, 3, 21)) + easterDays
  }

  /** _dtWrap: a copy of dt moved by |days| days, back when days is negative,
      forward otherwise. */
  function DtWrap(dt: Day, days: int): (r: Day)
    ensures r == dt + days
  {
    var interval := if days < 0 then -days else days;
    if days < 0 then dt - interval else dt + interval
  }

  /** The first Sunday on or after day n. */
  function SundayOnOrAfter(n: Day): (s: Day)
    ensures Weekday(s) == 7 && n <= s <= n + 6
    ensures forall k :: n <= k < s ==> Weekday(k) != 7
  {
    WeekdayForward(n, 7 - Weekday(n));
    forall k | n <= k < n + (7 - Weekday(n))
      ensures Weekday(k) != 7
    {
      WeekdayForward(n, k - n);
    }
    n + (7 - Weekday(n))
  }

  /** The last Sunday on or before day n. */
  function SundayOnOrBefore(n: Day): (s: Day)
    ensures Weekday(s) == 7 && n - 6 <= s <= n
    ensures forall k :: s < k <= n ==> Weekday(k) != 7
  {
    var back := Weekday(n) % 7;
    WeekdayShift(n, -back);
    forall k | n - back < k <= n
      ensures Weekday(k) != 7
    {
      WeekdayBackward(n, n - k);
    }
    n - back
  }

  /** Mother's Day: a week after the first Sunday on or after 1 May. */
  function MothersDay(year: int): Day
    requires 1 <= year
  {
    SundayOnOrAfter(ToDay(Date(year, 5, 1))) + 7
  }

  /** Father's Day: two weeks after the first Sunday on or after 1 June. */
  function FathersDay(year: int): Day
    requires 1 <= year
  {
    SundayOnOrAfter(ToDay(Date(year, 6, 1))) + 14
  }

  /** Start of summer time: the last Sunday on or before 31 March. */
  function SummerTime(year: int): Day
    requires 1 <= year
  {
    SundayOnOrBefore(ToDay(Date(year, 3, 31)))
  }

  /** End of summer time: the last Sunday on or before 31 October. */
  function WinterTime(year: int): Day
    requires 1 <= year
  {
    SundayOnOrBefore(ToDay(Date(year, 10, 31)))
  }

  /** The labels of the eight moving feasts, in call order. */
  const FeastNames: seq<string> := [CarnivalSunday, AshWednesday, GoodFriday, FirstEasterDay,
    SecondEasterDay, AscensionDay, FirstPentecostDay, SecondPentecostDay]

  /** Their day offsets from Easter Sunday, in the same order. */
  const EasterOffsets: seq<int> := [-49, -46, -2, 0, 1, 39, 49, 50]

  /** The first part of _addDynamicEvents: the eight feasts around Easter,
      each on _dtWrap(Easter, offset) formatted 'Y-m-d', in call order. */
  function MovingFeasts(year: int, easterDays: nat): seq<Event>
    requires 1 <= year
  {
    var easter := EasterSunday(year, easterDays);
    [ Event(ToDate(DtWrap(easter, -49)), CarnivalSunday),
      Event(ToDate(DtWrap(easter, -46)), AshWednesday),
      Event(ToDate(DtWrap(easter, -2)), GoodFriday),
      Event(ToDate(easter), FirstEasterDay),
      Event(ToDate(DtWrap(easter, 1)), SecondEasterDay),
      Event(ToDate(DtWrap(easter, 39)), AscensionDay),
      Event(ToDate(DtWrap(easter, 49)), FirstPentecostDay),
      Event(ToDate(DtWrap(easter, 50)), SecondPentecostDay) ]
  }

  /** The second part of _addDynamicEvents: the four Sunday searches. */
  function SundayEvents(year: int): seq<Event>
    requires 1 <= year
  {
    [Event(ToDate(MothersDay(year)), MothersDayName)]
    + [Event(ToDate(FathersDay(year)), FathersDayName)]
    + [Event(ToDate(SummerTime(year)), SummerTimeName)]
    + [Event(ToDate(WinterTime(year)), WinterTimeName)]
  }

  /** _addDynamicEvents: the moving feasts, then the Sunday searches, in call order. */
  function DynamicEvents(year: int, easterDays: nat): seq<Event>
    requires 1 <= year
  {
    MovingFeasts(year, easterDays) + SundayEvents(year)
  }

  /** The digit character of 0 <= d <= 9. */
  function DigitChar(d: int): char
    requires 0 <= d <= 9
  {
    (48 + d) as char
  }

  /** PHP's integer-to-string conversion for a non-negative integer. */
  function DecimalString(n: nat): (s: string)
    ensures |s| >= 1 && forall i :: 0 <= i < |s| ==> '0' <= s[i] <= '9'
    ensures |s| > 1 ==> s[0] != '0'
  {
    if n < 10 then [DigitChar(n)] else DecimalString(n / 10) + [DigitChar(n % 10)]
  }

  /** The value of a string of decimal digits. */
  function DecimalValue(s: string): int
    requires forall i :: 0 <= i < |s| ==> '0' <= s[i] <= '9'
  {
    if |s| == 0 then 0 else 10 * DecimalValue(s[..|s| - 1]) + (s[|s| - 1] as int - 48)
  }

  /** Reading the digits back gives the number. */
  lemma {:induction false} DecimalRoundTrip(n: nat)
    ensures DecimalValue(DecimalString(n)) == n
  {
    var s := DecimalString(n);
    if n >= 10 {
      DecimalRoundTrip(n / 10);
      assert s[..|s| - 1] == DecimalString(n / 10);
    }
  }

  /** The anniversary label: 'Sir Paul McCartney (' . age . ')'. */
  function AnniversaryName(age: nat): string {
    "Sir Paul McCartney (" + DecimalString(age) + ")"
  }

  /** _addPrivateEvents: from 1942 on, one event on 18 June. */
  function PrivateEvents(year: int): seq<Event> {
    if year >= BirthYear then [Event(Date(year, 6, 18), AnniversaryName(year - BirthYear))] else []
  }

  /** Every event the constructor files, in filing order. */
  function CalendarEvents(year: int, easterDays: nat, includePrivateEvents: bool): seq<Event>
    requires 1 <= year
  {
    if includePrivateEvents then StaticEvents(year) + DynamicEvents(year, easterDays) + PrivateEvents(year)
    else StaticEvents(year) + DynamicEvents(year, easterDays)
  }

  /** Filing every event is filing the fixed-date run, then the dynamic run,
      then the private run when it is asked for. */
  lemma CalendarEventsInRuns(m: EventMap, year: int, easterDays: nat, includePrivateEvents: bool)
    requires 1 <= year
    ensures includePrivateEvents ==>
      (FileEvents(m, CalendarEvents(year, easterDays, includePrivateEvents)) ==
       FileEvents(FileEvents(FileEvents(m, StaticEvents(year)), DynamicEvents(year, easterDays)), PrivateEvents(year)))
    ensures !includePrivateEvents ==>
      (FileEvents(m, CalendarEvents(year, easterDays, includePrivateEvents)) ==
       FileEvents(FileEvents(m, StaticEvents(year)), DynamicEvents(year, easterDays)))
  {
    FileEventsConcat(m, StaticEvents(year), DynamicEvents(year, easterDays));
    if includePrivateEvents {
      FileEventsConcat(m, StaticEvents(year) + DynamicEvents(year, easterDays), PrivateEvents(year));
    }
  }

  /** The weekdays of the moving feasts when Easter falls on a Sunday: Sunday, Wednesday, Friday,
      Sunday, Monday, Thursday, Sunday, Monday. */
  const FeastWeekdays: seq<int> := [7, 3, 5, 7, 1, 4, 7, 1]

  /** The fixed dates exist and follow one another strictly in time, from
      Christmas of the previous year to New Year's Day of the next. */
  lemma StaticEventsInOrder(year: int)
    requires 2 <= year
    ensures |StaticEvents(year)| == 10
    ensures forall i :: 0 <= i < 10 ==> ValidDate(StaticEvents(year)[i].date)
    ensures forall i :: 0 <= i < 9 ==>
      ToDay(StaticEvents(year)[i].date) < ToDay(StaticEvents(year)[i + 1].date)
  {
    MonthStarts(year - 1);
    MonthStarts(year);
    YearStep(year - 1);
    YearStep(year);
  }

  /** The i-th moving feast carries the i-th label of FeastNames and falls
      EasterOffsets[i] days from Easter Sunday. */
  lemma MovingFeastDays(year: int, easterDays: nat, i: int)
    requires 1 <= year && 0 <= i < 8
    ensures |MovingFeasts(year, easterDays)| == 8
    ensures MovingFeasts(year, easterDays)[i].name == FeastNames[i]
    ensures ValidDate(MovingFeasts(year, easterDays)[i].date)
    ensures ToDay(MovingFeasts(year, easterDays)[i].date) == EasterSunday(year, easterDays) + EasterOffsets[i]
  {
    ToDateSpec(EasterSunday(year, easterDays) + EasterOffsets[i]);
  }

  /** When Easter is a Sunday, the moving feasts fall on their customary weekdays. */
  lemma MovingFeastWeekdays(year: int, easterDays: nat, i: int)
    requires 1 <= year && 0 <= i < 8 && Weekday(EasterSunday(year, easterDays)) == 7
    ensures |MovingFeasts(year, easterDays)| == 8
    ensures ValidDate(MovingFeasts(year, easterDays)[i].date)
    ensures Weekday(ToDay(MovingFeasts(year, easterDays)[i].date)) == FeastWeekdays[i]
  {
    MovingFeastDays(year, easterDays, i);
    OffsetWeekday(EasterSunday(year, easterDays), i);
  }

  /** The weekday a Sunday moves to under each Easter offset. */
  lemma OffsetWeekday(sunday: Day, i: int)
    requires 0 <= i < 8 && Weekday(sunday) == 7
    ensures Weekday(sunday + EasterOffsets[i]) == FeastWeekdays[i]
  {
    var k := EasterOffsets[i];
    WeekdayShift(sunday, k);
    assert (6 + k) % 7 + 1 == FeastWeekdays[i] by {
      if i == 0 { assert 6 + k == 7 * -7 + 6; }
      else if i == 1 { assert 6 + k == 7 * -6 + 2; }
      else if i == 2 { assert 6 + k == 4; }
      else if i == 3 { assert 6 + k == 6; }
      else if i == 4 { assert 6 + k == 7; }
      else if i == 5 { assert 6 + k == 7 * 6 + 3; }
      else if i == 6 { assert 6 + k == 7 * 7 + 6; }
      else { assert 6 + k == 7 * 8; }
    }
  }

  /** With Easter at most 35 days after 21 March, every moving feast lies in `year`. */
  lemma MovingFeastsInYear(year: int, easterDays: nat, i: int)
    requires 1 <= year && 0 <= i < 8 && easterDays <= 35
    ensures |MovingFeasts(year, easterDays)| == 8
    ensures MovingFeasts(year, easterDays)[i].date.year == year
  {
    MovingFeastDays(year, easterDays, i);
    var d := MovingFeasts(year, easterDays)[i].date;
    MonthStarts(year);
    YearStep(year);
    ToDayBounds(d);
    YearUnique(ToDay(d), d.year, year);
  }

  /** Mother's Day is the second Sunday of May: a Sunday from 8 to 14 May. */
  lemma MothersDayWindow(year: int)
    requires 1 <= year
    ensures Weekday(MothersDay(year)) == 7
    ensures var d := ToDate(MothersDay(year));
      d.year == year && d.month == 5 && 8 <= d.day <= 14
  {
    var first := ToDay(Date(year, 5, 1));
    var k := MothersDay(year) - first;
    WeekdayAfterWeeks(SundayOnOrAfter(first), 1);
    DayInMonth(year, 5, 1, k);
    assert first + k == MothersDay(year);
  }

  /** Mother's Day 2025 fell on 11 May. */
  lemma MothersDayAnchor()
    ensures MothersDay(2025) == ToDay(Date(2025, 5, 11))
  {
    DaysBeforeYearFormula(2025);
    assert DaysBeforeYear(2025) == 739251;
    MonthStarts(2025);
    assert ToDay(Date(2025, 5, 1)) == 739371;
  }

  /** Father's Day is the third Sunday of June: a Sunday from 15 to 21 June. */
  lemma FathersDayWindow(year: int)
    requires 1 <= year
    ensures Weekday(FathersDay(year)) == 7
    ensures var d := ToDate(FathersDay(year));
      d.year == year && d.month == 6 && 15 <= d.day <= 21
  {
    var first := ToDay(Date(year, 6, 1));
    var k := FathersDay(year) - first;
    WeekdayAfterWeeks(SundayOnOrAfter(first), 2);
    DayInMonth(year, 6, 1, k);
    assert first + k == FathersDay(year);
  }

  /** Summer time starts on the last Sunday of March: a Sunday from 25 to 31 March. */
  lemma SummerTimeWindow(year: int)
    requires 1 <= year
    ensures Weekday(SummerTime(year)) == 7
    ensures var d := ToDate(SummerTime(year));
      d.year == year && d.month == 3 && 25 <= d.day <= 31
  {
    var start := ToDay(Date(year, 3, 25));
    var k := SummerTime(year) - start;
    DayInMonth(year, 3, 25, k);
    assert start + k == SummerTime(year);
  }

  /** Summer time ends on the last Sunday of October: a Sunday from 25 to 31 October. */
  lemma WinterTimeWindow(year: int)
    requires 1 <= year
    ensures Weekday(WinterTime(year)) == 7
    ensures var d := ToDate(WinterTime(year));
      d.year == year && d.month == 10 && 25 <= d.day <= 31
  {
    var start := ToDay(Date(year, 10, 25));
    var k := WinterTime(year) - start;
    DayInMonth(year, 10, 25, k);
    assert start + k == WinterTime(year);
  }

  /** The anniversary is filed only from 1942 on, and only on 18 June of `year`,
      with the age year - 1942 in its label. */
  lemma PrivateEventLabels(year: int, date: Date)
    ensures LabelsIn(PrivateEvents(year), date) ==
      if year >= BirthYear && date == Date(year, 6, 18) then [AnniversaryName(year - BirthYear)] else []
  {
  }

  /** On every date the calendar lists the fixed-date labels first, then the
      Easter and Sunday ones, then the anniversary when private events are included. */
  lemma CalendarLabels(year: int, easterDays: nat, includePrivateEvents: bool, date: Date)
    requires 1 <= year
    ensures LabelsOn(FileEvents(map[], CalendarEvents(year, easterDays, includePrivateEvents)), date) ==
      LabelsIn(StaticEvents(year), date) + LabelsIn(DynamicEvents(year, easterDays), date) +
      (if includePrivateEvents then LabelsIn(PrivateEvents(year), date) else [])
  {
    var fixed, dynamic := StaticEvents(year), DynamicEvents(year, easterDays);
    if includePrivateEvents {
      LabelsOfRuns(fixed, dynamic, PrivateEvents(year), date);
    } else {
      LabelsOfRuns(fixed, dynamic, [], date);
      assert fixed + dynamic + [] == fixed + dynamic;
    }
  }
}
