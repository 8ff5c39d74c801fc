/**
 * The object-based recurring-event concern: the same occurrence generators,
 * expanded into `Event` objects, conflict detection that reports the event
 * objects themselves, and all validations declared in the concern.
 */
module RecurringEventBase {
  import opened Wrappers
  import opened Recurrence
  import RecurringEvent

  /**
   * `Gouge::RecurringEvent::Event` with integer times. The modelled code
   * never reassigns its attributes after construction, so they are constants.
   */
  class Event {
    const refObj: int
    const fromSecs: int
    const thruSecs: int

    constructor(refObj: int, fromSecs: int, thruSecs: int)
      ensures this.refObj == refObj && this.fromSecs == fromSecs && this.thruSecs == thruSecs
    {
      this.refObj := refObj;
      this.fromSecs := fromSecs;
      this.thruSecs := thruSecs;
    }
  }

  function EventFrom(e: Event): int { e.fromSecs }
  function EventThru(e: Event): int { e.thruSecs }

  /** The events hold exactly the given (from, thru) pairs, each referring to the schedule. */
  predicate HoldsPairs(arr: seq<Event>, id: int, pairs: seq<(int, int)>) {
    |arr| == |pairs| &&
    forall i :: 0 <= i < |arr| ==> arr[i].refObj == id && arr[i].fromSecs == pairs[i].0 && arr[i].thruSecs == pairs[i].1
  }

  /** `events(range_begin, range_end, time_filters_in_secs)`, with the bounds given as day boundaries. */
  method Events(s: Schedule, rangeBeginDayStart: Option<int>, rangeEndDayEnd: Option<int>, filter: seq<int>,
                calendarDates: seq<int>) returns (r: Result<seq<Event>, Failure>)
    ensures r.Err? <==> WindowedOccurrences(s, rangeBeginDayStart, rangeEndDayEnd, calendarDates).Err?
    ensures r.Err? ==> r.error == WindowedOccurrences(s, rangeBeginDayStart, rangeEndDayEnd, calendarDates).error
    ensures r.Ok? ==> HoldsPairs(r.value, s.id, Expanded(s, WindowedOccurrences(s, rangeBeginDayStart, rangeEndDayEnd, calendarDates).value, filter))
    ensures r.Ok? ==> forall i :: 0 <= i < |r.value| ==> fresh(r.value[i])
  {
    var (lfe, rge) := EventsWindow(s, rangeBeginDayStart, rangeEndDayEnd);
    var fetched := FetchEventsTime(s, lfe, rge, calendarDates);
    if fetched.Err? {
      return Err(fetched.error);
    }
    var occurrences := fetched.value;
    var arr: seq<Event> := [];
    var i := 0;
    while i < |occurrences|
      invariant 0 <= i <= |occurrences|
      invariant HoldsPairs(arr, s.id, Expanded(s, occurrences[..i], filter))
      invariant forall j :: 0 <= j < |arr| ==> fresh(arr[j])
    {
      assert occurrences[..i + 1][..i] == occurrences[..i];
      var from := EventStart(s, occurrences[i]);
      var thru := from + s.duration;
      if from !in filter {
        var event := new Event(s.id, from, thru);
        arr := arr + [event];
      }
      i := i + 1;
    }
    assert occurrences[..|occurrences|] == occurrences;
    r := Ok(arr);
  }

  /** `find_conflicted_events`: sorts the events in place by start, then reports overlapping neighbours with both objects. */
  method FindConflictedEvents(events: array<Event>) returns (arr: seq<Window<Event>>)
    modifies events
    ensures SortedBy(events[..], EventFrom)
    ensures multiset(events[..]) == multiset(old(events[..]))
    ensures arr == Conflicts(events[..], EventFrom, EventThru)
  {
    SortBy(events, EventFrom);
    arr := AdjacentConflicts(events[..], EventFrom, EventThru);
  }

  /** Conflicts of sorted events with non-negative durations start within the first event. */
  lemma SortedConflictsStartInsideFirst(events: seq<Event>)
    requires forall i :: 0 <= i < |events| ==> EventFrom(events[i]) <= EventThru(events[i])
    ensures forall w :: w in Conflicts(events, EventFrom, EventThru) ==>
      w.fromSecs <= w.thruSecs && w.fromSecs < w.first.thruSecs
  {
    ConflictWindowsInside(events, EventFrom, EventThru);
  }

  /** All validations, in the order the concern declares them: the recurrence type first. */
  function ValidationErrors(a: Attributes): seq<ValidationError> {
    TypeErrors(a) + ConditionalErrors(a)
  }

  lemma ValidationErrorsExactly(a: Attributes)
    ensures ValidationErrors(a) == [] <==> ValidSchedule(a)
  {
    TypeErrorsExactly(a);
    ConditionalErrorsExactly(a);
  }

  /** Both concerns report the same errors for the same record, only in a different order. */
  lemma SameErrorsEitherConcern(a: Attributes)
    ensures multiset(ValidationErrors(a)) == multiset(RecurringEvent.ValidationErrors(a))
    ensures ValidationErrors(a) == [] <==> RecurringEvent.ValidationErrors(a) == []
  {
    RecurringEvent.ValidationErrorsExactly(a);
    ValidationErrorsExactly(a);
  }

  /** A record without a type collects both type errors and, since it is not NO_RECURRENCE, needs an end. */
  lemma MissingTypeErrors(a: Attributes)
    requires a.recurrenceType.None? && a.recurrenceEnd.None?
    ensures ValidationErrors(a) == [("recurrence_type", BLANK), ("recurrence_type", EXCLUDED), ("recurrence_end", BLANK)]
  {
  }
}
