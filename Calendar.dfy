/** FWieP\PdfCalendar: a week calendar for one year. The constructor checks its
    arguments, groups the days into ISO weeks ($_weeks) and files the holidays
    and optional private events per date ($_events). */
module Calendar {
  import opened Dates
  import opened Weeks
  import opened WeekPartition
  import opened Events
  import opened Holidays

  /** The two InvalidArgumentExceptions the constructor throws. */
  datatype CalendarError = YearOutOfRange | InvalidPaperSize

  datatype Outcome = Pass | Fail(error: CalendarError)

  datatype Result<T> = Success(value: T) | Failure(error: CalendarError)

  const MinYear := 1582
  const MaxYear := 3000

  /** The constructor's argument checks: the year first, then the paper size,
      which must be exactly one of 'A4' and 'A5'. */
  function Validate(year: int, paperSize: string): (o: Outcome)
    ensures o == Pass <==> MinYear <= year <= MaxYear && paperSize in {"A4", "A5"}
    ensures o == Fail(YearOutOfRange) <==> year < MinYear || MaxYear < year
    ensures o == Fail(InvalidPaperSize) <==>
      MinYear <= year <= MaxYear && paperSize != "A4" && paperSize != "A5"
  {
    if year < MinYear || year > MaxYear then Fail(YearOutOfRange)
    else if paperSize != "A4" && paperSize != "A5" then Fail(InvalidPaperSize)
    else Pass
  }

  /** A lower-case paper size is refused: the check compares case-sensitively,
      before strtoupper runs. */
  lemma PaperSizeCaseSensitive(year: int, paperSize: string)
    requires MinYear <= year <= MaxYear && |paperSize| == 2 && paperSize[0] == 'a'
    ensures Validate(year, paperSize) == Fail(InvalidPaperSize)
  {
    assert paperSize != "A4" && paperSize != "A5" by {
      assert "A4"[0] == 'A' && "A5"[0] == 'A';
    }
  }

  /** strtoupper of one character: ASCII letters only. */
  function UpperChar(c: char): char {
    if 'a' <= c <= 'z' then (c as int - 32) as char else c
  }

  /** strtoupper. */
  function ToUpper(s: string): (r: string)
    ensures |r| == |s|
  {
    seq(|s|, i requires 0 <= i < |s| => UpperChar(s[i]))
  }

  /** strtoupper leaves no lower-case ASCII letter and keeps every other character. */
  lemma ToUpperResult(s: string, i: int)
    requires 0 <= i < |s|
    ensures !('a' <= ToUpper(s)[i] <= 'z')
    ensures !('a' <= s[i] <= 'z') ==> ToUpper(s)[i] == s[i]
    ensures 'a' <= s[i] <= 'z' ==> ToUpper(s)[i] as int == s[i] as int - 32
  {
  }

  /** A paper size that passed the check is already upper case: the stored
      size is the one given. */
  lemma ValidPaperSizeUnchanged(year: int, paperSize: string)
    requires Validate(year, paperSize) == Pass
    ensures ToUpper(paperSize) == paperSize
  {
    forall i | 0 <= i < |paperSize|
      ensures ToUpper(paperSize)[i] == paperSize[i]
    {
      ToUpperResult(paperSize, i);
    }
  }

  /** `while ($dt->format('N') != 7) $dt->add(P1D)`: step forward from `start`
      to the first Sunday on or after it. */
  method StepToSunday(start: Day) returns (d: Day)
    ensures d == SundayOnOrAfter(start)
  {
    d := start;
    while Weekday(d) != 7
      invariant start <= d <= SundayOnOrAfter(start)
      decreases SundayOnOrAfter(start) - d
    {
      d := d + 1;
    }
  }

  /** `while ($dt->format('N') != 7) $dt->sub(P1D)`: step back from `start`
      to the last Sunday on or before it. */
  method StepBackToSunday(start: Day) returns (d: Day)
    ensures d == SundayOnOrBefore(start)
  {
    d := start;
    while Weekday(d) != 7
      invariant SundayOnOrBefore(start) <= d <= start
      decreases d - SundayOnOrBefore(start)
    {
      d := d - 1;
    }
  }

  class PdfCalendar {
    /** $_year and $_paperSize: set once by the constructor, never changed. */
    const year: int
    const paperSize: string
    /** $_weeks: the ISO week groups in insertion order. */
    var weeks: seq<Week>
    /** $_events: the labels per date. */
    var events: EventMap

    /** _addEvent: append the label to the list of its date. */
    method AddEvent(date: Date, name: string)
      modifies this`events
      ensures events == AddLabel(old(events), Event(date, name))
    {
      events := events[date := LabelsOn(events, date) + [name]];
    }

    /** _addStaticEvents: the ten fixed dates, in order. */
    method AddStaticEvents(year: int)
      modifies this`events
      ensures events == FileEvents(old(events), StaticEvents(year))
    {
      ghost var m0, filed := events, [];
      assert StaticEvents(year) == []
        + [Event(Date(year - 1, 12, 25), FirstChristmasDay)]
        + [Event(Date(year - 1, 12, 26), SecondChristmasDay)]
        + [Event(Date(year, 1, 1), NewYearsDay)]
        + [Event(Date(year, 2, 14), ValentinesDay)]
        + [Event(Date(year, 4, 27), KingsDay)]
        + [Event(Date(year, 5, 4), RemembranceDay)]
        + [Event(Date(year, 5, 5), LiberationDay)]
        + [Event(Date(year, 12, 25), FirstChristmasDay)]
        + [Event(Date(year, 12, 26), SecondChristmasDay)]
        + [Event(Date(year + 1, 1, 1), NewYearsDay)];
      AddEvent(Date(year - 1, 12, 25), FirstChristmasDay);
      FileEventsSnoc(m0, filed, Event(Date(year - 1, 12, 25), FirstChristmasDay));
      filed := filed + [Event(Date(year - 1, 12, 25), FirstChristmasDay)];
      AddEvent(Date(year - 1, 12, 26), SecondChristmasDay);
      FileEventsSnoc(m0, filed, Event(Date(year - 1, 12, 26), SecondChristmasDay));
      filed := filed + [Event(Date(year - 1, 12, 26), SecondChristmasDay)];
      AddEvent(Date(year, 1, 1), NewYearsDay);
      FileEventsSnoc(m0, filed, Event(Date(year, 1, 1), NewYearsDay));
      filed := filed + [Event(Date(year, 1, 1), NewYearsDay)];
      AddEvent(Date(year, 2, 14), ValentinesDay);
      FileEventsSnoc(m0, filed, Event(Date(year, 2, 14), ValentinesDay));
      filed := filed + [Event(Date(year, 2, 14), ValentinesDay)];
      AddEvent(Date(year, 4, 27), KingsDay);
      FileEventsSnoc(m0, filed, Event(Date(year, 4, 27), KingsDay));
      filed := filed + [Event(Date(year, 4, 27), KingsDay)];
      AddEvent(Date(year, 5, 4), RemembranceDay);
      FileEventsSnoc(m0, filed, Event(Date(year, 5, 4), RemembranceDay));
      filed := filed + [Event(Date(year, 5, 4), RemembranceDay)];
      AddEvent(Date(year, 5, 5), LiberationDay);
      FileEventsSnoc(m0, filed, Event(Date(year, 5, 5), LiberationDay));
      filed := filed + [Event(Date(year, 5, 5), LiberationDay)];
      AddEvent(Date(year, 12, 25), FirstChristmasDay);
      FileEventsSnoc(m0, filed, Event(Date(year, 12, 25), FirstChristmasDay));
      filed := filed + [Event(Date(year, 12, 25), FirstChristmasDay)];
      AddEvent(Date(year, 12, 26), SecondChristmasDay);
      FileEventsSnoc(m0, filed, Event(Date(year, 12, 26), SecondChristmasDay));
      filed := filed + [Event(Date(year, 12, 26), SecondChristmasDay)];
      AddEvent(Date(year + 1, 1, 1), NewYearsDay);
      FileEventsSnoc(m0, filed, Event(Date(year + 1, 1, 1), NewYearsDay));
      filed := filed + [Event(Date(year + 1, 1, 1), NewYearsDay)];
    }

    /** _addPrivateEvents: the anniversary on 18 June, from 1942 on. */
    method AddPrivateEvents(year: int)
      modifies this`events
      ensures events == FileEvents(old(events), PrivateEvents(year))
    {
      if year >= BirthYear {
        AddEvent(Date(year, 6, 18), AnniversaryName(year - BirthYear));
      }
    }

    /** _addDynamicEvents: the moving feasts, then the Sunday searches. */
    method AddDynamicEvents(year: int, easterDays: nat)
      requires 1 <= year
      modifies this`events
      ensures events == FileEvents(old(events), DynamicEvents(year, easterDays))
    {
      ghost var m0 := events;
      var easter := EasterSunday(year, easterDays);
      AddMovingFeasts(year, easterDays, easter);
      AddSundayEvents(year);
      FileEventsConcat(m0, MovingFeasts(year, easterDays), SundayEvents(year));
    }

    /** The first part of _addDynamicEvents: the eight feasts around Easter,
        each on _dtWrap(Easter, offset). */
    method AddMovingFeasts(year: int, easterDays: nat, easter: Day)
      requires 1 <= year && easter == EasterSunday(year, easterDays)
      modifies this`events
      ensures events == FileEvents(old(events), MovingFeasts(year, easterDays))
    {
      assert MovingFeasts(year, easterDays) == []
        + [Event(ToDate(DtWrap(easter, -49)), CarnivalSunday)]
        + [Event(ToDate(DtWrap(easter, -46)), AshWednesday)]
        + [Event(ToDate(DtWrap(easter, -2)), GoodFriday)]
        + [Event(ToDate(easter), FirstEasterDay)]
        + [Event(ToDate(DtWrap(easter, 1)), SecondEasterDay)]
        + [Event(ToDate(DtWrap(easter, 39)), AscensionDay)]
        + [Event(ToDate(DtWrap(easter, 49)), FirstPentecostDay)]
        + [Event(ToDate(DtWrap(easter, 50)), SecondPentecostDay)];
      ghost var m0, filed := events, [];
      AddEvent(ToDate(DtWrap(easter, -49)), CarnivalSunday);
      FileEventsSnoc(m0, filed, Event(ToDate(DtWrap(easter, -49)), CarnivalSunday));
      filed := filed + [Event(ToDate(DtWrap(easter, -49)), CarnivalSunday)];
      AddEvent(ToDate(DtWrap(easter, -46)), AshWednesday);
      FileEventsSnoc(m0, filed, Event(ToDate(DtWrap(easter, -46)), AshWednesday));
      filed := filed + [Event(ToDate(DtWrap(easter, -46)), AshWednesday)];
      AddEvent(ToDate(DtWrap(easter, -2)), GoodFriday);
      FileEventsSnoc(m0, filed, Event(ToDate(DtWrap(easter, -2)), GoodFriday));
      filed := filed + [Event(ToDate(DtWrap(easter, -2)), GoodFriday)];
      AddEvent(ToDate(easter), FirstEasterDay);
      FileEventsSnoc(m0, filed, Event(ToDate(easter), FirstEasterDay));
      filed := filed + [Event(ToDate(easter), FirstEasterDay)];
      AddEvent(ToDate(DtWrap(easter, 1)), SecondEasterDay);
      FileEventsSnoc(m0, filed, Event(ToDate(DtWrap(easter, 1)), SecondEasterDay));
      filed := filed + [Event(ToDate(DtWrap(easter, 1)), SecondEasterDay)];
      AddEvent(ToDate(DtWrap(easter, 39)), AscensionDay);
      FileEventsSnoc(m0, filed, Event(ToDate(DtWrap(easter, 39)), AscensionDay));
      filed := filed + [Event(ToDate(DtWrap(easter, 39)), AscensionDay)];
      AddEvent(ToDate(DtWrap(easter, 49)), FirstPentecostDay);
      FileEventsSnoc(m0, filed, Event(ToDate(DtWrap(easter, 49)), FirstPentecostDay));
      filed := filed + [Event(ToDate(DtWrap(easter, 49)), FirstPentecostDay)];
      AddEvent(ToDate(DtWrap(easter, 50)), SecondPentecostDay);
      FileEventsSnoc(m0, filed, Event(ToDate(DtWrap(easter, 50)), SecondPentecostDay));
      filed := filed + [Event(ToDate(DtWrap(easter, 50)), SecondPentecostDay)];
    }

    /** The second part of _addDynamicEvents: Mother's and Father's Day found
        by stepping forward to a Sunday, the summer and winter time changes by
        stepping back to one. */
    method AddSundayEvents(year: int)
      requires 1 <= year
      modifies this`events
      ensures events == FileEvents(old(events), SundayEvents(year))
    {
      assert ValidDate(Date(year, 3, 31)) && ValidDate(Date(year, 10, 31));
      ghost var m0 := events;

      var mothersDay := StepToSunday(ToDay(Date(year, 5, 1)));
      mothersDay := mothersDay + 7;
      assert mothersDay == MothersDay(year);
      AddEvent(ToDate(mothersDay), MothersDayName);
      ghost var filed := [Event(ToDate(MothersDay(year)), MothersDayName)];
      FileEventsOne(m0, filed[0]);

      var fathersDay := StepToSunday(ToDay(Date(year, 6, 1)));
      fathersDay := fathersDay + 14;
      assert fathersDay == FathersDay(year);
      AddEvent(ToDate(fathersDay), FathersDayName);
      FileEventsSnoc(m0, filed, Event(ToDate(FathersDay(year)), FathersDayName));
      filed := filed + [Event(ToDate(FathersDay(year)), FathersDayName)];

      var summerTime := StepBackToSunday(ToDay(Date(year, 3, 31)));
      assert summerTime == SummerTime(year);
      AddEvent(ToDate(summerTime), SummerTimeName);
      FileEventsSnoc(m0, filed, Event(ToDate(SummerTime(year)), SummerTimeName));
      filed := filed + [Event(ToDate(SummerTime(year)), SummerTimeName)];

      var winterTime := StepBackToSunday(ToDay(Date(year, 10, 31)));
      assert winterTime == WinterTime(year);
      AddEvent(ToDate(winterTime), WinterTimeName);
      FileEventsSnoc(m0, filed, Event(ToDate(WinterTime(year)), WinterTimeName));
    }

    /** The constructor after its argument checks: store the year and the
        upper-cased paper size, group every day from the Monday on or before
        1 January up to the first Monday on or after next 1 January under its
        ISO week key, then file the events. */
    constructor (year: int, easterDays: nat, paperSize: string := "A4", includePrivateEvents: bool := false)
      requires MinYear <= year <= MaxYear
      ensures this.year == year && this.paperSize == ToUpper(paperSize)
      ensures weeks == Partition(year)
      ensures events == FileEvents(map[], CalendarEvents(year, easterDays, includePrivateEvents))
    {
      this.year := year;
      this.paperSize := ToUpper(paperSize);
      weeks := [];
      events := map[];
      new;

      FillWeeks(year);
      AddCalendarEvents(year, easterDays, includePrivateEvents);
    }

    /** The middle of the constructor: step back from 1 January to a Monday,
        then file seven days at a time under the ISO week key of the first,
        while the loop condition holds. */
    method FillWeeks(year: int)
      requires MinYear <= year <= MaxYear && weeks == []
      modifies this`weeks
      ensures weeks == Partition(year)
    {
      var firstJan := ToDay(Date(year, 1, 1));
      var nextFirstJan := ToDay(Date(year + 1, 1, 1));
      var startDate := firstJan;
      while Weekday(startDate) > 1
        invariant FirstMonday(year) <= startDate <= firstJan
        decreases startDate
      {
        startDate := startDate - 1;
      }
      MondaysInOrder(startDate, FirstMonday(year));

      var loopDate := startDate;
      ghost var k := 0;
      while loopDate <= firstJan || IsoYear(loopDate) == year || loopDate < nextFirstJan
        invariant 0 <= k <= WeekCount(year)
        invariant loopDate == FirstMonday(year) + 7 * k
        invariant weeks == Partition(year)[..k]
        decreases WeekCount(year) - k
      {
        LoopConditionAt(year, k);
        var week := KeyOf(loopDate);
        NewKeyAbsent(year, k);
        ghost var done, monday := Partition(year)[..k], loopDate;
        for i := 0 to 7
          invariant loopDate == monday + i
          invariant weeks == Filed(done, week, monday, i)
        {
          FileDayStep(done, week, monday, i);
          weeks := FileDay(weeks, week, loopDate);
          loopDate := loopDate + 1;
        }
        FiledWeek(year, k);
        k := k + 1;
      }
      LoopConditionAt(year, k);
      assert Partition(year)[..k] == Partition(year);
    }

    /** The end of the constructor: the fixed-date events, the dynamic ones,
        then the private ones when asked for. */
    method AddCalendarEvents(year: int, easterDays: nat, includePrivateEvents: bool)
      requires 1 <= year && events == map[]
      modifies this`events
      ensures events == FileEvents(map[], CalendarEvents(year, easterDays, includePrivateEvents))
    {
      AddStaticEvents(year);
      AddDynamicEvents(year, easterDays);
      if includePrivateEvents {
        AddPrivateEvents(year);
      }
      CalendarEventsInRuns(map[], year, easterDays, includePrivateEvents);
    }
  }

  /** `new PdfCalendar(year, paperSize, includePrivateEvents)`: the argument
      checks throw, in this order, before anything is built. */
  method Create(year: int, easterDays: nat, paperSize: string := "A4", includePrivateEvents: bool := false)
    returns (r: Result<PdfCalendar>)
    ensures r.Failure? <==> Validate(year, paperSize) != Pass
    ensures r.Failure? ==> Validate(year, paperSize) == Fail(r.error)
    ensures r.Success? ==> fresh(r.value) && r.value.year == year && r.value.paperSize == paperSize
    ensures r.Success? ==> r.value.weeks == Partition(year)
    ensures r.Success? ==>
      r.value.events == FileEvents(map[], CalendarEvents(year, easterDays, includePrivateEvents))
  {
    var outcome := Validate(year, paperSize);
    if outcome.Fail? {
      return Failure(outcome.error);
    }
    ValidPaperSizeUnchanged(year, paperSize);
    var calendar := new PdfCalendar(year, easterDays, paperSize, includePrivateEvents);
    return Success(calendar);
  }
}
