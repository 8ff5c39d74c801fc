/**
 * The hash-based recurring-event concern: occurrences expanded into
 * `{event_object, from_time_in_secs, thru_time_in_secs}` hashes, conflict
 * detection over such hashes, and the validations, which here come from
 * `acts_as_recurring_event` (the conditional ones) and from including the
 * concern (the recurrence type).
 */
module RecurringEvent {
  import opened Wrappers
  import opened Recurrence

  /** `event_to_hash(obj, from, thru)`; the event object is identified by its id. */
  datatype EventHash = EventHash(eventObject: int, fromSecs: int, thruSecs: int)

  function EventFrom(e: EventHash): int { e.fromSecs }
  function EventThru(e: EventHash): int { e.thruSecs }

  /** The hashes for the expanded (from, thru) pairs of a schedule. */
  function Hashes(id: int, pairs: seq<(int, int)>): (r: seq<EventHash>)
    ensures |r| == |pairs|
    ensures forall i :: 0 <= i < |pairs| ==> r[i] == EventHash(id, pairs[i].0, pairs[i].1)
  {
    seq(|pairs|, i requires 0 <= i < |pairs| => EventHash(id, pairs[i].0, pairs[i].1))
  }

  /**
   * `events(from_time_in_secs, thru_time_in_secs, filter_events)`. The
   * requested bounds arrive as the start of the requested first day and the
   * end of the requested last day.
   */
  method Events(s: Schedule, rangeBeginDayStart: Option<int>, rangeEndDayEnd: Option<int>, filter: seq<int>,
                calendarDates: seq<int>) returns (r: Result<seq<EventHash>, Failure>)
    ensures r.Err? <==> WindowedOccurrences(s, rangeBeginDayStart, rangeEndDayEnd, calendarDates).Err?
    ensures r.Err? ==> r.error == WindowedOccurrences(s, rangeBeginDayStart, rangeEndDayEnd, calendarDates).error
    ensures r.Ok? ==> r.value == Hashes(s.id, Expanded(s, WindowedOccurrences(s, rangeBeginDayStart, rangeEndDayEnd, calendarDates).value, filter))
  {
    var (lfe, rge) := EventsWindow(s, rangeBeginDayStart, rangeEndDayEnd);
    var fetched := FetchEventsTime(s, lfe, rge, calendarDates);
    if fetched.Err? {
      return Err(fetched.error);
    }
    var occurrences := fetched.value;
    var arr: seq<EventHash> := [];
    var i := 0;
    while i < |occurrences|
      invariant 0 <= i <= |occurrences|
      invariant arr == Hashes(s.id, Expanded(s, occurrences[..i], filter))
    {
      assert occurrences[..i + 1][..i] == occurrences[..i];
      var from := EventStart(s, occurrences[i]);
      var thru := from + s.duration;
      if from !in filter {
        arr := arr + [EventHash(s.id, from, thru)];
      }
      i := i + 1;
    }
    assert occurrences[..|occurrences|] == occurrences;
    r := Ok(arr);
  }

  /** One entry of the conflict list: the two events' object ids and the overlap window. */
  datatype ConflictHash = ConflictHash(firstEventId: int, secondEventId: int, fromSecs: int, thruSecs: int)

  function ConflictHashes(windows: seq<Window<EventHash>>): (r: seq<ConflictHash>)
    ensures |r| == |windows|
    ensures forall i :: 0 <= i < |windows| ==>
      r[i] == ConflictHash(windows[i].first.eventObject, windows[i].second.eventObject, windows[i].fromSecs, windows[i].thruSecs)
  {
    seq(|windows|, i requires 0 <= i < |windows| =>
      ConflictHash(windows[i].first.eventObject, windows[i].second.eventObject, windows[i].fromSecs, windows[i].thruSecs))
  }

  /** `find_conflicted_events`: sorts the events in place by start, then reports overlapping neighbours. */
  method FindConflictedEvents(events: array<EventHash>) returns (arr: seq<ConflictHash>)
    modifies events
    ensures SortedBy(events[..], EventFrom)
    ensures multiset(events[..]) == multiset(old(events[..]))
    ensures arr == ConflictHashes(Conflicts(events[..], EventFrom, EventThru))
  {
    SortBy(events, EventFrom);
    var windows := AdjacentConflicts(events[..], EventFrom, EventThru);
    arr := ConflictHashes(windows);
  }

  /** At most one conflict per adjacent pair. */
  lemma ConflictCount(events: seq<EventHash>)
    ensures |ConflictHashes(Conflicts(events, EventFrom, EventThru))| <= if events == [] then 0 else |events| - 1
  {
  }

  /**
   * Only neighbours are compared: an event that overlaps the one after its
   * neighbour is not reported when the neighbour itself does not overlap.
   */
  lemma OnlyNeighboursCompared()
    ensures var events := [EventHash(1, 0, 100), EventHash(2, 10, 20), EventHash(3, 30, 40)];
      ConflictHashes(Conflicts(events, EventFrom, EventThru)) == [ConflictHash(1, 2, 10, 20)]
  {
    var events := [EventHash(1, 0, 100), EventHash(2, 10, 20), EventHash(3, 30, 40)];
    assert events[..2][..1] == [EventHash(1, 0, 100)];
    assert events[..2] == [EventHash(1, 0, 100), EventHash(2, 10, 20)];
    assert Conflicts(events[..2], EventFrom, EventThru) == [Window(EventHash(1, 0, 100), EventHash(2, 10, 20), 10, 20)];
  }

  /** The validation errors in the order the validators are declared: `acts_as_recurring_event`'s first, then the concern's. */
  function ValidationErrors(a: Attributes): seq<ValidationError> {
    ConditionalErrors(a) + TypeErrors(a)
  }

  /** A record is valid exactly when its type is known, its end is set unless it does not recur, and its type's interval is given. */
  lemma ValidationErrorsExactly(a: Attributes)
    ensures ValidationErrors(a) == [] <==> ValidSchedule(a)
  {
    TypeErrorsExactly(a);
    ConditionalErrorsExactly(a);
  }
}
