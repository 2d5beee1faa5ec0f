/** The week partition the PdfCalendar constructor builds in $_weeks: from the
    Monday on or before 1 January, 7-day groups filed under the ISO year-week
    key of their Monday, while the loop condition holds. */
module Weeks {
  import opened Dates

  /** The key format('o-W') gives a day: its ISO year and ISO week number. */
  datatype WeekKey = WeekKey(isoYear: int, week: int)

  /** One entry of $_weeks: a key and the days filed under it, in filing order. */
  datatype Week = Week(key: WeekKey, days: seq<Day>)

  function KeyOf(n: Day): WeekKey
    requires 0 <= n
  {
    WeekKey(IsoYear(n), IsoWeek(n))
  }

  /** Chronological order of ISO year-week keys. */
  predicate KeyBefore(a: WeekKey, b: WeekKey) {
    a.isoYear < b.isoYear || (a.isoYear == b.isoYear && a.week < b.week)
  }

  /** 1 January of year y. */
  function FirstJanuary(y: int): (n: Day)
    requires 1 <= y
    ensures n == DaysBeforeYear(y)
  {
    ToDay(Date(y, 1, 1))
  }

  /** A later day never lies in an earlier year. */
  lemma YearOfMonotone(a: Day, b: Day)
    requires 0 <= a <= b
    ensures YearOf(a) <= YearOf(b)
  {
    var ya, yb := YearOf(a), YearOf(b);
    if ya > yb {
      DaysBeforeYearMonotone(yb + 1, ya);
    }
  }

  /** The Monday k weeks after a Monday has a strictly later key. */
  lemma KeyAdvance(m: Day, k: nat)
    requires 0 <= m && Weekday(m) == 1 && k > 0
    ensures KeyBefore(KeyOf(m), KeyOf(m + 7 * k))
  {
    var t1, t2 := Thursday(m), Thursday(m + 7 * k);
    assert t1 == m + 3 && t2 == m + 7 * k + 3;
    YearOfMonotone(t1, t2);
    if YearOf(t1) == YearOf(t2) {
      var j := DaysBeforeYear(YearOf(t1));
      assert t2 - j == (t1 - j) + 7 * k;
    }
  }

  /** The condition of the week loop: on or before 1 January, or in ISO year
      `year`, or before 1 January of the next year. */
  predicate Continues(n: Day, year: int)
    requires 1 <= year
  {
    n <= FirstJanuary(year) || IsoYear(n) == year || n < FirstJanuary(year + 1)
  }

  /** On a Monday the loop condition is just "before next 1 January": the
      first two clauses never hold beyond that day. */
  lemma ContinuesOnMonday(n: Day, year: int)
    requires 1 <= year && Weekday(n) == 1
    ensures Continues(n, year) <==> n < FirstJanuary(year + 1)
  {
    YearStep(year);
  }

  /** The keys of $_weeks, in insertion order. */
  function Keys(ws: seq<Week>): (ks: seq<WeekKey>)
    ensures |ks| == |ws|
  {
    seq(|ws|, i requires 0 <= i < |ws| => ws[i].key)
  }

  /** The position of the group filed under `key`, or |ws| when there is none. */
  function Find(ws: seq<Week>, key: WeekKey): (i: nat)
    ensures i <= |ws|
    ensures i < |ws| ==> ws[i].key == key
    ensures forall j :: 0 <= j < i ==> ws[j].key != key
  {
    if |ws| == 0 then 0
    else if ws[0].key == key then 0
    else 1 + Find(ws[1..], key)
  }

  /** $_weeks[$key]: the days filed under `key`, none when the key is absent. */
  function DaysUnder(ws: seq<Week>, key: WeekKey): seq<Day> {
    var i := Find(ws, key);
    if i < |ws| then ws[i].days else []
  }

  /** Extending an array with groups under other keys moves no key: a key
      present stays where it was, and an absent key stays absent. */
  lemma FindExtended(a: seq<Week>, b: seq<Week>, key: WeekKey)
    requires |a| <= |b| && forall j :: 0 <= j < |a| ==> a[j].key == b[j].key
    requires forall j :: |a| <= j < |b| ==> b[j].key != key
    ensures Find(a, key) < |a| ==> Find(b, key) == Find(a, key)
    ensures Find(a, key) == |a| ==> Find(b, key) == |b|
  {
    var i := Find(a, key);
    if i < |a| {
      assert b[i].key == key;
    }
  }

  /** `$_weeks[$key][] = $d`: append d to the group filed under `key`, or open a
      new group at the end when no group has that key yet. */
  function FileDay(ws: seq<Week>, key: WeekKey, d: Day): seq<Week> {
    var i := Find(ws, key);
    if i < |ws| then ws[i := Week(key, ws[i].days + [d])] else ws + [Week(key, [d])]
  }

  /** Filing a day appends it to the days under its key, adds the key at the end
      when it is new, and leaves the days under every other key alone. */
  lemma FileDaySemantics(ws: seq<Week>, key: WeekKey, d: Day)
    ensures Keys(FileDay(ws, key, d)) == if key in Keys(ws) then Keys(ws) else Keys(ws) + [key]
    ensures DaysUnder(FileDay(ws, key, d), key) == DaysUnder(ws, key) + [d]
    ensures forall other :: other != key ==> DaysUnder(FileDay(ws, key, d), other) == DaysUnder(ws, other)
  {
    var i := Find(ws, key);
    var r := FileDay(ws, key, d);
    assert forall j :: 0 <= j < |ws| ==> ws[j].key == r[j].key;
    if i < |ws| {
      assert Keys(ws)[i] == key;
      assert Keys(r) == Keys(ws);
      FindExtended(ws, r, key);
    } else {
      assert key !in Keys(ws);
      assert Keys(r) == Keys(ws) + [key];
      assert r[|ws|].key == key;
    }
    forall other | other != key
      ensures DaysUnder(r, other) == DaysUnder(ws, other)
    {
      FindExtended(ws, r, other);
    }
  }

  /** Filing under a key no group has yet opens a new group at the end. */
  lemma FileDayNew(ws: seq<Week>, key: WeekKey, d: Day)
    requires forall j :: 0 <= j < |ws| ==> ws[j].key != key
    ensures FileDay(ws, key, d) == ws + [Week(key, [d])]
  {
  }

  /** Filing under the key of the last group, and of no earlier one, appends to that group. */
  lemma FileDayLast(ws: seq<Week>, key: WeekKey, d: Day)
    requires |ws| > 0 && ws[|ws| - 1].key == key
    requires forall j :: 0 <= j < |ws| - 1 ==> ws[j].key != key
    ensures FileDay(ws, key, d) == ws[..|ws| - 1] + [Week(key, ws[|ws| - 1].days + [d])]
  {
    assert Find(ws, key) == |ws| - 1;
  }

  /** The days m, m + 1, ..., m + count - 1, in the order the inner loop files them. */
  function DaysFrom(m: Day, count: nat): seq<Day> {
    seq(count, j => m + j)
  }

  /** $_weeks in the middle of a week: the groups `ws` filed before it, then,
      once i > 0 days of it are filed, the group of its first i days under `key`. */
  function Filed(ws: seq<Week>, key: WeekKey, m: Day, i: nat): seq<Week> {
    ws + if i == 0 then [] else [Week(key, DaysFrom(m, i))]
  }

  /** One pass of the inner loop: filing day m + i under a key that no earlier
      group carries extends the week's group by that day. */
  lemma FileDayStep(ws: seq<Week>, key: WeekKey, m: Day, i: nat)
    requires forall j :: 0 <= j < |ws| ==> ws[j].key != key
    ensures FileDay(Filed(ws, key, m, i), key, m + i) == Filed(ws, key, m, i + 1)
  {
    if i == 0 {
      FileDayNew(ws, key, m);
      assert DaysFrom(m, 1) == [m];
    } else {
      var fs := Filed(ws, key, m, i);
      FileDayLast(fs, key, m + i);
      assert fs[..|fs| - 1] == ws;
      assert DaysFrom(m, i) + [m + i] == DaysFrom(m, i + 1);
    }
  }

  /** The group filed for the week that starts on Monday m. */
  function WeekFrom(m: Day): Week
    requires 0 <= m
  {
    Week(KeyOf(m), DaysFrom(m, 7))
  }

  /** The Monday on or before 1 January, where the loop starts. */
  function FirstMonday(year: int): (m: Day)
    requires 1 <= year
    ensures 0 <= m && Weekday(m) == 1 && FirstJanuary(year) - 6 <= m <= FirstJanuary(year)
  {
    var f := FirstJanuary(year);
    WeekdayBackward(f, Weekday(f) - 1);
    f - (Weekday(f) - 1)
  }

  /** How many weeks begin from the first Monday up to, not including, next 1 January. */
  function WeekCount(year: int): (c: nat)
    requires 1 <= year
    ensures FirstMonday(year) + 7 * (c - 1) < FirstJanuary(year + 1) <= FirstMonday(year) + 7 * c
  {
    YearStep(year);
    var n := FirstJanuary(year + 1) - FirstMonday(year);
    assert n > 0;
    (n + 6) / 7
  }

  /** $_weeks after the constructor's loop: one group per week counted by WeekCount. */
  function Partition(year: int): (p: seq<Week>)
    requires 1 <= year
    ensures |p| == WeekCount(year)
  {
    seq(WeekCount(year), i requires 0 <= i => WeekFrom(FirstMonday(year) + 7 * i))
  }

  /** Monday s + 7k passes the loop condition exactly while k is below WeekCount. */
  lemma LoopConditionAt(year: int, k: int)
    requires 1 <= year && 0 <= k
    ensures Weekday(FirstMonday(year) + 7 * k) == 1
    ensures Continues(FirstMonday(year) + 7 * k, year) <==> k < WeekCount(year)
  {
    var s := FirstMonday(year);
    WeekdayAfterWeeks(s, k);
    ContinuesOnMonday(s + 7 * k, year);
    if k < WeekCount(year) {
      assert s + 7 * k <= s + 7 * (WeekCount(year) - 1);
    } else {
      assert s + 7 * WeekCount(year) <= s + 7 * k;
    }
  }
}

/** What the week loop promises about the groups it files: their number,
    shape, order, keys and coverage of the year. */
module WeekPartition {
  import opened Dates
  import opened Weeks

  /** 53 groups, or 54 exactly when `year` is a leap year starting on a Sunday. */
  lemma PartitionCount(year: int)
    requires 1 <= year
    ensures |Partition(year)| == if IsLeapYear(year) && Weekday(FirstJanuary(year)) == 7 then 54 else 53
  {
    YearStep(year);
    var n := FirstJanuary(year + 1) - FirstMonday(year);
    assert n == DaysInYear(year) + Weekday(FirstJanuary(year)) - 1;
  }

  /** Group i: the seven days from the Monday i weeks after the first Monday,
      filed under the ISO year-week key of that Monday. */
  lemma PartitionGroup(year: int, i: nat)
    requires 1 <= year && i < |Partition(year)|
    ensures var m := FirstMonday(year) + 7 * i;
      Weekday(m) == 1 && Partition(year)[i] == Week(KeyOf(m), DaysFrom(m, 7))
  {
    WeekdayAfterWeeks(FirstMonday(year), i);
  }

  /** The first group starts on the Monday on or before 1 January. */
  lemma PartitionStart(year: int)
    requires 1 <= year
    ensures |Partition(year)| > 0 && |Partition(year)[0].days| == 7
    ensures var m := Partition(year)[0].days[0];
      Weekday(m) == 1 && FirstJanuary(year) - 6 <= m <= FirstJanuary(year)
  {
    PartitionCount(year);
    PartitionGroup(year, 0);
  }

  /** Each group starts the day after the previous one ends. */
  lemma PartitionContiguous(year: int, i: nat)
    requires 1 <= year && i + 1 < |Partition(year)|
    ensures |Partition(year)[i].days| == 7 && |Partition(year)[i + 1].days| == 7
    ensures Partition(year)[i + 1].days[0] == Partition(year)[i].days[6] + 1
  {
    PartitionGroup(year, i);
    PartitionGroup(year, i + 1);
  }

  /** The last group holds the day before next 1 January. */
  lemma PartitionEnd(year: int)
    requires 1 <= year
    ensures |Partition(year)| > 0
    ensures var last := Partition(year)[|Partition(year)| - 1];
      |last.days| == 7 && last.days[0] < FirstJanuary(year + 1) <= last.days[6] + 1
  {
    PartitionCount(year);
    PartitionGroup(year, |Partition(year)| - 1);
  }

  /** Keys strictly increase along the partition, so none repeats. */
  lemma PartitionKeysIncrease(year: int, i: nat, j: nat)
    requires 1 <= year && i < j < |Partition(year)|
    ensures KeyBefore(Partition(year)[i].key, Partition(year)[j].key)
    ensures Partition(year)[i].key != Partition(year)[j].key
  {
    var m := FirstMonday(year) + 7 * i;
    PartitionGroup(year, i);
    PartitionGroup(year, j);
    KeyAdvance(m, j - i);
    assert m + 7 * (j - i) == FirstMonday(year) + 7 * j;
  }

  /** The loop stops at the first Monday on or after next 1 January. */
  lemma PartitionSpan(year: int)
    requires 1 <= year
    ensures var e := FirstMonday(year) + 7 * |Partition(year)|;
      Weekday(e) == 1 && FirstJanuary(year + 1) <= e < FirstJanuary(year + 1) + 7
  {
    WeekdayAfterWeeks(FirstMonday(year), |Partition(year)|);
  }

  /** Day s + k, for k below 7 times the number of groups, is filed as day k % 7 of group k / 7. */
  lemma PartitionDay(year: int, k: int)
    requires 1 <= year && 0 <= k < 7 * |Partition(year)|
    ensures |Partition(year)[k / 7].days| == 7
    ensures Partition(year)[k / 7].days[k % 7] == FirstMonday(year) + k
  {
    PartitionGroup(year, k / 7);
  }

  /** Every day of calendar year `year` lies in the span the partition files. */
  lemma YearInSpan(year: int, n: Day)
    requires 1 <= year && 0 <= n && YearOf(n) == year
    ensures FirstMonday(year) <= n < FirstMonday(year) + 7 * |Partition(year)|
  {
    PartitionSpan(year);
  }

  /** Every day of ISO year `year` lies in the span the partition files. */
  lemma IsoYearInSpan(year: int, n: Day)
    requires 1 <= year && 0 <= n && IsoYear(n) == year
    ensures FirstMonday(year) <= n < FirstMonday(year) + 7 * |Partition(year)|
  {
    var s := FirstMonday(year);
    var e := s + 7 * |Partition(year)|;
    PartitionSpan(year);
    var t := Thursday(n);
    assert DaysBeforeYear(year) <= t < DaysBeforeYear(year + 1);
    var m := t - 3;
    MondayOfWeek(n);
    assert s - 7 < m;
    MondaysInOrder(s, m);
    WeekdayAfterWeeks(m, 1);
    assert m < e;
    MondaysInOrder(m + 7, e);
  }

  /** Every day of `year`, and every day of ISO year `year`, is filed in some group. */
  lemma PartitionCovers(year: int, n: Day)
    requires 1 <= year && 0 <= n && (YearOf(n) == year || IsoYear(n) == year)
    ensures exists i, j ::
      (0 <= i < |Partition(year)| && 0 <= j < |Partition(year)[i].days| && Partition(year)[i].days[j] == n)
  {
    if YearOf(n) == year {
      YearInSpan(year, n);
    } else {
      IsoYearInSpan(year, n);
    }
    var k := n - FirstMonday(year);
    PartitionDay(year, k);
    var i, j := k / 7, k % 7;
    assert 0 <= i < |Partition(year)| && 0 <= j < |Partition(year)[i].days| && Partition(year)[i].days[j] == n;
  }

  /** No group filed before week k carries week k's key, so filing its first
      day opens a new group rather than joining an earlier one. */
  lemma NewKeyAbsent(year: int, k: nat)
    requires 1 <= year && k < WeekCount(year)
    ensures forall j :: 0 <= j < k ==> Partition(year)[j].key != KeyOf(FirstMonday(year) + 7 * k)
  {
    PartitionGroup(year, k);
    forall j | 0 <= j < k
      ensures Partition(year)[j].key != Partition(year)[k].key
    {
      PartitionKeysIncrease(year, j, k);
    }
  }

  /** After the seventh day, week k is complete: the first k + 1 groups of the partition. */
  lemma FiledWeek(year: int, k: nat)
    requires 1 <= year && k < WeekCount(year)
    ensures var m := FirstMonday(year) + 7 * k;
      Filed(Partition(year)[..k], KeyOf(m), m, 7) == Partition(year)[..k + 1]
  {
    PartitionGroup(year, k);
    assert Partition(year)[..k + 1] == Partition(year)[..k] + [Partition(year)[k]];
  }

  /** Of two Mondays less than a week apart in this direction, the first is not later. */
  lemma MondaysInOrder(a: Day, b: Day)
    requires Weekday(a) == 1 && Weekday(b) == 1 && a - 7 < b
    ensures a <= b
  {
    assert a == 7 * (a / 7) && b == 7 * (b / 7);
  }

  /** The key of the Monday on or before 1 January: week 1 of the year when
      1 January falls from Monday to Thursday, otherwise a week of the year
      before, counted from that year's first day to the Thursday. */
  lemma FirstMondayKey(year: int)
    requires 1 <= year
    ensures var w := Weekday(FirstJanuary(year));
      var key := KeyOf(FirstMonday(year));
      (w <= 4 ==> key == WeekKey(year, 1)) &&
      (w >= 5 ==> 2 <= year && key == WeekKey(year - 1, (DaysInYear(year - 1) - w + 4) / 7 + 1))
  {
    var f := FirstJanuary(year);
    var t := Thursday(FirstMonday(year));
    assert t == f - Weekday(f) + 4;
    YearStep(year);
    if Weekday(f) <= 4 {
      YearUnique(t, year, YearOf(t));
    } else {
      assert year != 1;
      var p := DaysBeforeYear(year - 1);
      assert f == p + DaysInYear(year - 1);
      assert p <= t < f;
      YearUnique(t, year - 1, YearOf(t));
      assert t - p == DaysInYear(year - 1) - Weekday(f) + 4;
    }
  }

  /** The key of the first group, by the weekday of 1 January: week 1 from
      Monday to Thursday, and otherwise the last week of the year before (53
      after a Friday, 53 or 52 after a Saturday as that year was leap or not,
      52 after a Sunday). */
  lemma FirstGroupKey(year: int)
    requires 1 <= year
    ensures |Partition(year)| > 0
    ensures var w := Weekday(FirstJanuary(year));
      var key := Partition(year)[0].key;
      (w <= 4 ==> key == WeekKey(year, 1)) &&
      (w == 5 ==> key == WeekKey(year - 1, 53)) &&
      (w == 6 ==> key == WeekKey(year - 1, if IsLeapYear(year - 1) then 53 else 52)) &&
      (w == 7 ==> key == WeekKey(year - 1, 52))
  {
    PartitionStart(year);
    PartitionGroup(year, 0);
    FirstMondayKey(year);
  }

  /** 2012, a leap year that began on a Sunday, gets 54 groups. */
  lemma PartitionCountAnchor()
    ensures Weekday(FirstJanuary(2012)) == 7 && |Partition(2012)| == 54
  {
    assert Weekday(FirstJanuary(2012)) == 7 by {
      DaysBeforeYearFormula(2012);
    }
    PartitionCount(2012);
  }

  /** 2021 began on a Friday: its first group is week 53 of ISO year 2020. */
  lemma FirstWeekAnchor()
    ensures Weekday(FirstJanuary(2021)) == 5 && Partition(2021)[0].key == WeekKey(2020, 53)
  {
    assert Weekday(FirstJanuary(2021)) == 5 by {
      DaysBeforeYearFormula(2021);
    }
    FirstGroupKey(2021);
  }
}
