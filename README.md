# Week calendar model (FWieP\PdfCalendar)

A Dafny model of the date and event logic of `FWieP\PdfCalendar`, the class
that builds a one-year week calendar. Its constructor:

1. checks its arguments: the year must lie in 1582..3000, and the paper size
   must be exactly `A4` or `A5`;
2. stores the year and the upper-cased paper size;
3. steps back from 1 January to a Monday, then files 7-day groups in
   `$_weeks` under the ISO 8601 year-week key (`format('o-W')`) of each group's
   Monday, for as long as the loop condition holds;
4. files holiday labels in `$_events`, keyed by `Y-m-d` date, in this order:
   ten fixed dates, eight Easter-relative feasts, four Sunday searches and,
   optionally, one anniversary.

Modules:

- `Dates` (Dates.dfy): proleptic Gregorian dates.
  - A DateTime at midnight is a day number, `Day`: day 0 is 0001-01-01.
  - `ToDay` parses a `Y-m-d` triple and `ToDate` formats one back.
  - `Weekday` is `format('N')`; `IsoYear` and `IsoWeek` are `format('o')` and
    `format('W')`, taken from the Thursday of the Monday-to-Sunday week.
- `Weeks` (Weeks.dfy): `$_weeks` as a sequence of (key, days) groups in
  insertion order, `FileDay` for `$_weeks[$key][] = $d`, and the reference
  partition `Partition(year)` that the loop builds.
- `WeekPartition` (Weeks.dfy): what the week loop promises about that partition.
- `Events` (Events.dfy): `$_events` as `map<Date, seq<string>>`.
  - `AddLabel` is `_addEvent`.
  - `FileEvents` is a run of `_addEvent` calls.
- `Holidays` (Holidays.dfy): the event lists each `_add*Events` method files,
  in call order, and their calendar properties.
- `Calendar` (Calendar.dfy): the class `PdfCalendar`.
  - Its `weeks` and `events` fields are updated in place by methods with loops
    that mirror the source's loops.
  - `Create` models `new PdfCalendar(...)`, including the two exceptions.

How the events methods are proved: each method that files events ensures the
new `events` equals `FileEvents(old(events), L)`, where `L` is the method's
event list in `Holidays`. The lemmas about `FileEvents` and those lists then
give the label order per date and the date windows.

The code is followed where it differs from a plain reading of the calendar's
rules:

- 27 April is never moved off a Sunday;
- the anniversary is filed only on 18 June of the displayed year;
- no pages are padded;
- the week loop always yields 53 or 54 groups (`WeekPartition.PartitionCount`),
  while the file header speaks of a "52-53 page" calendar.

## Model

| member | source | states |
|---|---|---|
| Calendar.Validate | src/PdfCalendar.php:243-252 | Pass exactly when 1582 <= year <= 3000 and the paper size is "A4" or "A5". The year error is raised whenever the year is out of range. The paper-size error is raised exactly for an in-range year with another size |
| Calendar.PaperSizeCaseSensitive | src/PdfCalendar.php:248-252 | a size starting with lower-case 'a' is refused: the comparison happens before upper-casing |
| Calendar.ToUpper | src/PdfCalendar.php:254 | strtoupper, character by character, of the same length (its effect on each character is stated by ToUpperResult) |
| Calendar.ToUpperResult | src/PdfCalendar.php:254 | strtoupper leaves no ASCII lower-case letter, lowers the code of each such letter by 32, and keeps every other character |
| Calendar.ValidPaperSizeUnchanged | src/PdfCalendar.php:248-254 | for a size that passed the check, strtoupper returns it unchanged |
| Calendar.StepToSunday | src/PdfCalendar.php:185-187 | the forward one-day loop ends on the first Sunday on or after its start |
| Calendar.StepBackToSunday | src/PdfCalendar.php:203-205 | the backward one-day loop ends on the last Sunday on or before its start |
| Calendar.PdfCalendar.AddEvent | src/PdfCalendar.php:80-83 | `events` becomes AddLabel of the old map: the label is appended to its date's list |
| Calendar.PdfCalendar.AddStaticEvents | src/PdfCalendar.php:114-126 | `events` becomes the old map with the ten fixed-date events filed in call order |
| Calendar.PdfCalendar.AddPrivateEvents | src/PdfCalendar.php:136-143 | `events` becomes the old map with the anniversary filed, from 1942 on, and unchanged before 1942 |
| Calendar.PdfCalendar.AddDynamicEvents | src/PdfCalendar.php:153-217 | `events` becomes the old map with the eight moving feasts and then the four Sunday events filed |
| Calendar.PdfCalendar.AddMovingFeasts | src/PdfCalendar.php:155-182 | `events` becomes the old map with each feast filed on the formatted _dtWrap(Easter, offset), in call order |
| Calendar.PdfCalendar.AddSundayEvents | src/PdfCalendar.php:184-216 | the loop results, plus 7 or 14 days, equal MothersDay, FathersDay, SummerTime and WinterTime, and those four events are filed in order |
| Calendar.PdfCalendar.constructor | src/PdfCalendar.php:240-281 | fields: the year, the upper-cased size, `weeks == Partition(year)`, and `events` = every calendar event filed into an empty map in call order |
| Calendar.PdfCalendar.FillWeeks | src/PdfCalendar.php:256-274 | the start-Monday loop and the week loop with its inner 7-day loop build exactly `Partition(year)` |
| Calendar.PdfCalendar.AddCalendarEvents | src/PdfCalendar.php:275-280 | static, then dynamic, then (when asked) private events are filed into the empty map: the result is `FileEvents(map[], CalendarEvents(..))` |
| Calendar.Create | src/PdfCalendar.php:240-281 | fails exactly when Validate fails, with Validate's error. On success the object is fresh, stores the size unchanged, and holds the partition and the full event map |
| Dates.ToDateSpec | src/PdfCalendar.php:157-159 | format('Y-m-d') of any day gives an existing date that parses back to that day |
| Dates.ToDateToDay | src/PdfCalendar.php:184-190 | parsing a valid date and formatting it again gives the same date |
| Dates.ToDayInjective | src/PdfCalendar.php:116-125 | distinct valid dates are distinct days |
| Dates.InYear | src/PdfCalendar.php:157-182 | a day between 1 January of y and 1 January of y + 1 is formatted with year y |
| Dates.DayInMonth | src/PdfCalendar.php:184-191 | days inside one month are numbered consecutively |
| Dates.YearOf | src/PdfCalendar.php:266 | the year of a day is the one whose first day is on or before it and whose successor's first day is after it |
| Dates.Weekday | src/PdfCalendar.php:185 | format('N') lies in 1..7 |
| Dates.WeekdayAfterWeeks | src/PdfCalendar.php:188 | adding whole weeks keeps the weekday |
| Dates.WeekdayShift | src/PdfCalendar.php:157-182 | the weekday k days later, counted round the week |
| Dates.Thursday | src/PdfCalendar.php:266 | the week's Thursday is a Thursday within three days of the day |
| Dates.MondayOfWeek | src/PdfCalendar.php:269 | the Monday three days before the Thursday starts the day's week |
| Dates.IsoWeek | src/PdfCalendar.php:269 | format('W') lies in 1..53 |
| Dates.FourthOfJanuaryInWeekOne | src/PdfCalendar.php:269 | 4 January has ISO year y and ISO week 1 |
| Dates.TwentyEighthOfDecemberInOwnYear | src/PdfCalendar.php:266 | 28 December lies in ISO year y |
| Dates.ToDay | src/PdfCalendar.php:256-257 | new DateTime('Y-m-d'): the day number of a date, 1 January's number plus the days of the earlier months plus the day of the month (ToDateToDay and ToDayInjective state that it is one-to-one and that ToDate inverts it) |
| Dates.ToDate | src/PdfCalendar.php:157-159 | format('Y-m-d'): the date of a day number (its contract is ToDateSpec: a valid date that parses back to the day) |
| Dates.IsoYear | src/PdfCalendar.php:266 | format('o'): the calendar year of the Thursday of the day's Monday-to-Sunday week (FourthOfJanuaryInWeekOne and TwentyEighthOfDecemberInOwnYear pin it down) |
| Dates.DaysBeforeYearFormula | src/PdfCalendar.php:256 | 1 January of year y is day 365 (y - 1) + (y - 1) / 4 - (y - 1) / 100 + (y - 1) / 400: the Gregorian leap-year rule summed over the earlier years |
| Dates.EpochAnchor | src/PdfCalendar.php:256-262 | the day numbering agrees with the real calendar: 1 January 2024 is day 738885 and a Monday |
| Weeks.FirstMonday | src/PdfCalendar.php:258-262 | the start is a Monday, 0 to 6 days before 1 January |
| Weeks.KeyAdvance | src/PdfCalendar.php:269 | a Monday whole weeks later has a strictly later year-week key |
| Weeks.ContinuesOnMonday | src/PdfCalendar.php:265-267 | on a Monday the three-clause loop condition is "before next 1 January": the `'o' == year` clause adds nothing |
| Weeks.LoopConditionAt | src/PdfCalendar.php:265-268 | Monday number k holds the loop condition exactly while k < WeekCount(year) |
| Weeks.WeekCount | src/PdfCalendar.php:265-274 | the last Monday counted is before next 1 January and the next one is not |
| Weeks.Find | src/PdfCalendar.php:271 | the position of a key is its first occurrence, or the length when it is absent |
| Weeks.FileDaySemantics | src/PdfCalendar.php:271 | filing a day appends it under its key and adds the key at the end when new. Every other key's days are unchanged |
| Weeks.FileDayNew | src/PdfCalendar.php:271 | a new key opens a one-day group at the end |
| Weeks.FileDayLast | src/PdfCalendar.php:271 | a key held only by the last group appends to that group |
| Weeks.FileDayStep | src/PdfCalendar.php:270-273 | one pass of the inner loop extends the week's group by one day |
| Weeks.FindExtended | src/PdfCalendar.php:271 | appending groups under other keys moves no key |
| Weeks.KeyOf | src/PdfCalendar.php:269 | format('o-W'): the pair of the day's ISO year and ISO week number (KeyAdvance and FirstMondayKey state its values) |
| Weeks.Continues | src/PdfCalendar.php:265-267 | the three-clause loop condition: on or before 1 January, or ISO year equal to the year, or before next 1 January (ContinuesOnMonday and LoopConditionAt state when it holds) |
| Weeks.FileDay | src/PdfCalendar.php:271 | `$_weeks[$key][] = $d`: append to the group under the key, or open a new group at the end (stated by FileDaySemantics) |
| Weeks.Partition | src/PdfCalendar.php:256-274 | the groups the week loop files: WeekCount groups of seven days from the first Monday, each under its Monday's key (FillWeeks builds it; the WeekPartition lemmas state its shape) |
| WeekPartition.PartitionCount | src/PdfCalendar.php:265-274 | 53 groups, or 54 exactly for a leap year starting on a Sunday |
| WeekPartition.PartitionGroup | src/PdfCalendar.php:269-273 | group i holds the 7 days from Monday i, under that Monday's key |
| WeekPartition.PartitionStart | src/PdfCalendar.php:258-263 | the first group starts on the Monday on or before 1 January |
| WeekPartition.PartitionContiguous | src/PdfCalendar.php:270-273 | each group starts the day after the previous one ends |
| WeekPartition.PartitionEnd | src/PdfCalendar.php:265-274 | the last group holds the day before next 1 January |
| WeekPartition.PartitionKeysIncrease | src/PdfCalendar.php:269 | keys strictly increase, so none repeats |
| WeekPartition.PartitionSpan | src/PdfCalendar.php:265-274 | the loop stops at the first Monday on or after next 1 January |
| WeekPartition.PartitionDay | src/PdfCalendar.php:270-273 | day k of the span is day k % 7 of group k / 7 |
| WeekPartition.YearInSpan | src/PdfCalendar.php:265-274 | every day of the calendar year lies in the span |
| WeekPartition.IsoYearInSpan | src/PdfCalendar.php:265-274 | every day of the ISO year lies in the span |
| WeekPartition.PartitionCovers | src/PdfCalendar.php:265-274 | every day of the calendar year and of the ISO year is filed in some group |
| WeekPartition.NewKeyAbsent | src/PdfCalendar.php:269-271 | no earlier group carries the key of week k |
| WeekPartition.FiledWeek | src/PdfCalendar.php:270-273 | after seven days, week k completes the first k + 1 groups |
| WeekPartition.MondaysInOrder | src/PdfCalendar.php:260-262 | of two Mondays less than a week apart in this order, the first is not later |
| WeekPartition.FirstMondayKey | src/PdfCalendar.php:258-269 | the loop's first Monday has key (year, 1) when 1 January falls Monday to Thursday, and otherwise a week of year - 1 counted from that year's start to the Thursday |
| WeekPartition.FirstGroupKey | src/PdfCalendar.php:258-271 | the first group is week 1 of the year from a Monday to Thursday 1 January; otherwise week 53 of the year before after a Friday, 53 or 52 after a Saturday as that year was leap or not, and 52 after a Sunday |
| WeekPartition.PartitionCountAnchor | src/PdfCalendar.php:265-274 | 1 January 2012 is a Sunday, and that leap year gets 54 groups |
| WeekPartition.FirstWeekAnchor | src/PdfCalendar.php:258-271 | 1 January 2021 is a Friday, and the first group of 2021 is filed under week 53 of 2020 |
| Events.AddLabelSemantics | src/PdfCalendar.php:80-83 | _addEvent adds the date as a key, appends the label last, and leaves every other date alone |
| Events.FileEventsLabels | src/PdfCalendar.php:80-83 | after a run, a date holds its old labels followed by the run's labels for it, in run order |
| Events.FileEventsKeys | src/PdfCalendar.php:80-83 | a run creates entries for exactly its dates |
| Events.FileEventsConcat | src/PdfCalendar.php:275-280 | two runs in a row file what their concatenation files |
| Events.LabelsInConcat | src/PdfCalendar.php:275-280 | a date's labels from two runs are the first run's, then the second's |
| Events.LabelsInNonEmpty | src/PdfCalendar.php:80-83 | a run files a label on a date exactly when one of its events has it |
| Events.FileEventsSnoc | src/PdfCalendar.php:80-83 | one more _addEvent call extends a run by one event |
| Events.FileEventsOne | src/PdfCalendar.php:80-83 | a one-event run is one _addEvent call |
| Events.LabelsOfRuns | src/PdfCalendar.php:275-280 | three runs filed into the empty map leave on each date the first run's labels, then the second's, then the third's |
| Events.AddLabel | src/PdfCalendar.php:80-83 | `$_events[$date][] = $name`: the map with the label appended to its date's list (stated by AddLabelSemantics) |
| Holidays.DtWrap | src/PdfCalendar.php:93-104 | the result is dt + days for negative and non-negative days alike |
| Holidays.SundayOnOrAfter | src/PdfCalendar.php:185-187 | a Sunday at most 6 days after n, with no Sunday in between |
| Holidays.SundayOnOrBefore | src/PdfCalendar.php:203-205 | a Sunday at most 6 days before n, with no Sunday in between |
| Holidays.StaticEventsInOrder | src/PdfCalendar.php:114-126 | exactly ten fixed dates, all existing, strictly increasing from 25 December of year - 1 to 1 January of year + 1 |
| Holidays.MovingFeastDays | src/PdfCalendar.php:155-182 | feast i carries label i and falls on Easter (21 March + easterDays) plus offset i of -49, -46, -2, 0, 1, 39, 49, 50 |
| Holidays.OffsetWeekday | src/PdfCalendar.php:157-182 | from a Sunday, offset i lands on weekday i of Sun, Wed, Fri, Sun, Mon, Thu, Sun, Mon |
| Holidays.MovingFeastWeekdays | src/PdfCalendar.php:155-182 | when Easter is a Sunday, each feast falls on its customary weekday |
| Holidays.MovingFeastsInYear | src/PdfCalendar.php:155-182 | with easterDays <= 35, every feast falls in the displayed year |
| Holidays.MothersDayWindow | src/PdfCalendar.php:184-191 | Mother's Day is a Sunday from 8 to 14 May |
| Holidays.FathersDayWindow | src/PdfCalendar.php:193-200 | Father's Day is a Sunday from 15 to 21 June |
| Holidays.SummerTimeWindow | src/PdfCalendar.php:202-208 | the summer time change is a Sunday from 25 to 31 March |
| Holidays.WinterTimeWindow | src/PdfCalendar.php:210-216 | the winter time change is a Sunday from 25 to 31 October |
| Holidays.DecimalString | src/PdfCalendar.php:140 | the age is written in decimal digits with no leading zero |
| Holidays.DecimalRoundTrip | src/PdfCalendar.php:140 | the digits read back as the age |
| Holidays.PrivateEventLabels | src/PdfCalendar.php:136-143 | the anniversary label appears from 1942 on, only on 18 June of the year, with age year - 1942 |
| Holidays.CalendarEventsInRuns | src/PdfCalendar.php:275-280 | filing every event is filing the static run, then the dynamic run, then the private run when asked |
| Holidays.CalendarLabels | src/PdfCalendar.php:275-280 | on every date the labels are the static ones, then the dynamic ones, then the private one when asked |
| Holidays.EasterSunday | src/PdfCalendar.php:65-70 | _getEasterDatetime: 21 March of the year plus easter_days(year) days (MovingFeastDays and MovingFeastsInYear state where the feasts built on it fall) |
| Holidays.StaticEvents | src/PdfCalendar.php:114-126 | the ten fixed-date events in call order (stated by StaticEventsInOrder) |
| Holidays.MovingFeasts | src/PdfCalendar.php:155-182 | the eight Easter-relative feasts in call order (stated by MovingFeastDays, MovingFeastWeekdays and MovingFeastsInYear) |
| Holidays.SundayEvents | src/PdfCalendar.php:184-216 | the four Sunday-search events in call order (their dates are stated by the window lemmas) |
| Holidays.DynamicEvents | src/PdfCalendar.php:153-217 | the moving feasts followed by the Sunday events |
| Holidays.PrivateEvents | src/PdfCalendar.php:136-143 | the anniversary on 18 June from 1942 on, nothing before (stated by PrivateEventLabels) |
| Holidays.AnniversaryName | src/PdfCalendar.php:140 | 'Sir Paul McCartney (' followed by the age in decimal and ')' |
| Holidays.CalendarEvents | src/PdfCalendar.php:275-280 | static, then dynamic, then the private events when asked (stated by CalendarEventsInRuns and CalendarLabels) |
| Holidays.MothersDay | src/PdfCalendar.php:184-191 | a week after the first Sunday on or after 1 May (stated by MothersDayWindow) |
| Holidays.FathersDay | src/PdfCalendar.php:193-200 | two weeks after the first Sunday on or after 1 June (stated by FathersDayWindow) |
| Holidays.SummerTime | src/PdfCalendar.php:202-208 | the last Sunday on or before 31 March (stated by SummerTimeWindow) |
| Holidays.WinterTime | src/PdfCalendar.php:210-216 | the last Sunday on or before 31 October (stated by WinterTimeWindow) |
| Holidays.MothersDayAnchor | src/PdfCalendar.php:184-191 | Mother's Day 2025 is 11 May |

## Left out

- `getPDF` (Mpdf rendering, style sheet, locale month names, download) and
  `_getTitle` (`sprintf` for metadata): output only, no date or event logic.
- `easter_days`: a PHP extension function with no source here. It is the
  parameter `easterDays` of the constructor, `Create` and the Easter
  functions, and the feasts are stated relative to it.
- PHP `DateTime` internals: time of day and time zones are not modelled. A
  midnight DateTime is a day number from 0001-01-01, so years before 1 are
  not representable. The constructor only accepts 1582..3000.
- Strings as keys: `$_events` keys and `_addEvent`'s argument are `Y-m-d`
  strings, modelled as `Date` triples. `$_weeks` keys (`o-W`, with a
  zero-padded week) are `WeekKey` pairs. Both encodings are one-to-one.
- `$_weeks` holds cloned DateTime objects, modelled as day numbers. Object
  identity and aliasing of the clones are not modelled.
- PHP's loose `format('o') == $year` comparison is modelled as integer
  equality of the ISO year with the year.
- index.php (form handling, locale and time zone setup) and
  private-events.php (an unused constant) are not part of this model.
- HTML inside labels (`<sup>`, `&rarr;`) is kept verbatim in opaque strings.
- Calendar.PdfCalendar.constructor: requires the year range 1582..3000,
  which is what the argument check lets through; the date logic itself only
  needs a year of 1 or later. A Dafny constructor cannot throw, so both
  argument checks and their exceptions are modelled by `Create`, which calls
  the constructor only after `Validate` passes.
- Calendar.ToUpper: upper-cases the ASCII letters a-z of a character string.
  PHP's `strtoupper` works on bytes and, before PHP 8, follows the current
  locale (the web front end sets a Dutch one), so it may also change
  non-ASCII bytes. This makes no difference to the stored paper size, which
  has already passed the check against "A4" and "A5".
- Holidays.MovingFeastsInYear: requires `easterDays <= 35`, the largest value
  `easter_days` returns for Gregorian years. Without that bound a feast may
  fall in the next year, and the source does not guard against it.
- The body of `_addDynamicEvents` is split into `AddMovingFeasts` and
  `AddSundayEvents`. The body of the constructor after the argument checks is
  split into `FillWeeks` and `AddCalendarEvents`. The four Sunday loops share
  the two methods `StepToSunday` and `StepBackToSunday`. The statements and
  their order are unchanged.
