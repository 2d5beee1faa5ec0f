/** $_events: for each 'Y-m-d' date, the labels filed on it in filing order.
    The PdfCalendar constructor fills it through _addEvent only. */
module Events {
  import opened Dates

  /** One _addEvent call: a date and the label to print on it. */
  datatype Event = Event(date: Date, name: string)

  type EventMap = map<Date, seq<string>>

  /** $_events[$date]: the labels on a date, none when the date has no entry. */
  function LabelsOn(m: EventMap, date: Date): seq<string> {
    if date in m then m[date] else []
  }

  /** `$_events[$date][] = $label`, the body of _addEvent. */
  function AddLabel(m: EventMap, e: Event): EventMap {
    m[e.date := LabelsOn(m, e.date) + [e.name]]
  }

  /** _addEvent appends the label at the end of its date's list, creates the
      entry when the date had none, and leaves every other date alone. */
  lemma AddLabelSemantics(m: EventMap, e: Event)
    ensures AddLabel(m, e).Keys == m.Keys + {e.date}
    ensures LabelsOn(AddLabel(m, e), e.date) == LabelsOn(m, e.date) + [e.name]
    ensures forall d :: d != e.date ==> LabelsOn(AddLabel(m, e), d) == LabelsOn(m, d)
  {
  }

  /** The labels a run of events files on `date`, in run order. */
  function LabelsIn(evs: seq<Event>, date: Date): (ls: seq<string>)
    ensures |ls| <= |evs|
  {
    if |evs| == 0 then []
    else (if evs[0].date == date then [evs[0].name] else []) + LabelsIn(evs[1..], date)
  }

  /** The dates a run of events files labels on. */
  function DatesIn(evs: seq<Event>): set<Date> {
    set e | e in evs :: e.date
  }

  /** A run of _addEvent calls, one per event, in order. */
  function FileEvents(m: EventMap, evs: seq<Event>): EventMap
    decreases |evs|
  {
    if |evs| == 0 then m else FileEvents(AddLabel(m, evs[0]), evs[1..])
  }

  /** After a run of _addEvent calls, each date holds its earlier labels followed
      by the labels the run filed on it, in run order. */
  lemma {:induction false} FileEventsLabels(m: EventMap, evs: seq<Event>, date: Date)
    ensures LabelsOn(FileEvents(m, evs), date) == LabelsOn(m, date) + LabelsIn(evs, date)
    decreases |evs|
  {
    if |evs| > 0 {
      FileEventsLabels(AddLabel(m, evs[0]), evs[1..], date);
      AddLabelSemantics(m, evs[0]);
    }
  }

  /** A run of _addEvent calls creates entries for exactly the dates it files on. */
  lemma {:induction false} FileEventsKeys(m: EventMap, evs: seq<Event>)
    ensures FileEvents(m, evs).Keys == m.Keys + DatesIn(evs)
    decreases |evs|
  {
    if |evs| > 0 {
      FileEventsKeys(AddLabel(m, evs[0]), evs[1..]);
      assert evs == [evs[0]] + evs[1..];
      assert DatesIn(evs) == {evs[0].date} + DatesIn(evs[1..]);
    }
  }

  /** Two runs in a row file what their concatenation files. */
  lemma {:induction false} FileEventsConcat(m: EventMap, a: seq<Event>, b: seq<Event>)
    ensures FileEvents(m, a + b) == FileEvents(FileEvents(m, a), b)
    decreases |a|
  {
    if |a| > 0 {
      assert (a + b)[1..] == a[1..] + b;
      FileEventsConcat(AddLabel(m, a[0]), a[1..], b);
    } else {
      assert a + b == b;
    }
  }

  /** The labels of two runs on a date are those of the first, then those of the second. */
  lemma {:induction false} LabelsInConcat(a: seq<Event>, b: seq<Event>, date: Date)
    ensures LabelsIn(a + b, date) == LabelsIn(a, date) + LabelsIn(b, date)
    decreases |a|
  {
    if |a| > 0 {
      assert (a + b)[1..] == a[1..] + b;
      LabelsInConcat(a[1..], b, date);
    } else {
      assert a + b == b;
    }
  }

  /** A run files labels on a date exactly when one of its events has that date. */
  lemma {:induction false} LabelsInNonEmpty(evs: seq<Event>, date: Date)
    ensures LabelsIn(evs, date) != [] <==> date in DatesIn(evs)
    decreases |evs|
  {
    if |evs| > 0 {
      LabelsInNonEmpty(evs[1..], date);
      assert evs == [evs[0]] + evs[1..];
      assert DatesIn(evs) == {evs[0].date} + DatesIn(evs[1..]);
    }
  }

  /** One more _addEvent call extends a run by one event. */
  lemma {:induction false} FileEventsSnoc(m: EventMap, evs: seq<Event>, e: Event)
    ensures FileEvents(m, evs + [e]) == AddLabel(FileEvents(m, evs), e)
    decreases |evs|
  {
    if |evs| > 0 {
      assert (evs + [e])[1..] == evs[1..] + [e];
      FileEventsSnoc(AddLabel(m, evs[0]), evs[1..], e);
    }
  }

  /** A run of one event is one _addEvent call. */
  lemma FileEventsOne(m: EventMap, e: Event)
    ensures FileEvents(m, [e]) == AddLabel(m, e)
  {
    assert [e][1..] == [];
  }

  /** Three runs in a row, into an empty map: each date lists the first run's
      labels, then the second's, then the third's. */
  lemma LabelsOfRuns(a: seq<Event>, b: seq<Event>, c: seq<Event>, date: Date)
    ensures LabelsOn(FileEvents(map[], a + b + c), date) ==
      LabelsIn(a, date) + LabelsIn(b, date) + LabelsIn(c, date)
  {
    FileEventsLabels(map[], a + b + c, date);
    LabelsInConcat(a + b, c, date);
    LabelsInConcat(a, b, date);
  }
}
