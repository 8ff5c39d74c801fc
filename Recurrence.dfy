/**
 * The occurrence arithmetic shared by both recurring-event modules: the
 * schedule's start-of-day occurrence times for each recurrence type, the
 * window `events` clips them to, their expansion into (from, thru) pairs, the
 * in-place sort and the adjacent-pair conflict scan, and the validation rules.
 * All times are integer seconds; day boundaries (`beginning_of_day`,
 * `end_of_day`), the hour, minute and weekday of `from_time` are inputs.
 */
module Recurrence {
  import opened Wrappers
  import opened RubyText

  const MINUTE_IN_SECONDS: int := 60
  const HOUR_IN_SECONDS: int := MINUTE_IN_SECONDS * 60
  const DAY_IN_SECONDS: int := HOUR_IN_SECONDS * 24
  const WEEK_IN_SECONDS: int := DAY_IN_SECONDS * 7

  const NO_RECURRENCE: string := "NO_RECURRENCE"
  const EVERY_N_DAYS: string := "EVERY_N_DAYS"
  const EVERY_N_WEEKS: string := "EVERY_N_WEEKS"
  const EVERY_N_MONTHS: string := "EVERY_N_MONTHS"
  const EVERY_N_YEARS: string := "EVERY_N_YEARS"
  const EVERY_DAYS_OF_WEEK: string := "EVERY_DAYS_OF_WEEK"
  const RECURRENCE_TYPES: seq<string> :=
    [NO_RECURRENCE, EVERY_N_DAYS, EVERY_N_WEEKS, EVERY_N_MONTHS, EVERY_N_YEARS, EVERY_DAYS_OF_WEEK]

  /** Ruby exceptions the generators can raise. */
  datatype Failure = ArgumentError(message: string)

  /**
   * What the generators read from a schedule record. `fromDayStart` and
   * `fromDayEnd` are `from_time.beginning_of_day.to_i` and
   * `from_time.end_of_day.to_i`; `recurrenceEnd` is
   * `recurrence_end.end_of_day.to_i` when set.
   */
  datatype Schedule = Schedule(
    id: int,
    recurrenceType: string,
    fromDayStart: int,
    fromDayEnd: int,
    fromHour: int,
    fromMin: int,
    fromWday: int,
    duration: int,
    recurrenceEnd: Option<int>,
    recurEveryNDays: int,
    recurEveryNWeeks: int,
    recurEveryDaysOfWeek: string)

  // ----- the generators -----

  /** `no_recurrence_dates`: `[frt]` when it lies in the window, else nothing; a nil right edge is the end of `from_time`'s day. */
  function NoRecurrenceDates(lfe: int, rge: Option<int>, frt: int, fromDayEnd: int): (r: seq<int>)
    ensures var bound := if rge.Some? then rge.value else fromDayEnd;
      (r == [frt] <==> lfe <= frt <= bound) && (r == [] <==> !(lfe <= frt <= bound))
  {
    var bound := if rge.Some? then rge.value else fromDayEnd;
    if lfe <= frt && frt <= bound then [frt] else []
  }

  /** The k-th term of the progression from `start` by `step`. */
  function Nth(start: int, step: int, k: nat): int {
    start + k * step
  }

  /** `(cis..rge).step(step)`, keeping the values at or after `lfe`. */
  function Steps(lfe: int, rge: int, cis: int, step: int): seq<int>
    requires step > 0
    decreases rge - cis
  {
    if cis > rge then [] else (if lfe <= cis then [cis] else []) + Steps(lfe, rge, cis + step, step)
  }

  /** The stepping loop shared by the every-N-days, every-N-weeks and days-of-week generators. */
  method StepDates(lfe: int, rge: int, frt: int, step: int) returns (arr: seq<int>)
    requires step > 0
    ensures arr == Steps(lfe, rge, frt, step)
  {
    arr := [];
    var cis := frt;
    while cis <= rge
      invariant Steps(lfe, rge, frt, step) == arr + Steps(lfe, rge, cis, step)
      decreases rge - cis
    {
      if lfe <= cis {
        arr := arr + [cis];
      }
      cis := cis + step;
    }
  }

  lemma NthShift(start: int, step: int, k: nat)
    ensures Nth(start, step, k + 1) == Nth(start + step, step, k)
  {
  }

  /** Everything the progression yields lies in the window and is a term of the progression. */
  lemma {:induction false} StepsSound(lfe: int, rge: int, cis: int, step: int, x: int)
    requires step > 0 && x in Steps(lfe, rge, cis, step)
    ensures lfe <= x <= rge && cis <= x
    ensures exists k: nat :: Nth(cis, step, k) == x
    decreases rge - cis
  {
    if lfe <= cis && x == cis {
      assert Nth(cis, step, 0) == x;
    } else {
      StepsSound(lfe, rge, cis + step, step, x);
      var k: nat :| Nth(cis + step, step, k) == x;
      NthShift(cis, step, k);
    }
  }

  /** Every term of the progression inside the window is yielded. */
  lemma {:induction false} StepsComplete(lfe: int, rge: int, cis: int, step: int, k: nat)
    requires step > 0 && lfe <= Nth(cis, step, k) <= rge
    ensures Nth(cis, step, k) in Steps(lfe, rge, cis, step)
    decreases k
  {
    assert cis <= Nth(cis, step, k) by { NthAtLeastStart(cis, step, k); }
    if k > 0 {
      NthShift(cis, step, k - 1);
      StepsComplete(lfe, rge, cis + step, step, k - 1);
    }
  }

  lemma NthAtLeastStart(start: int, step: int, k: nat)
    requires step > 0
    ensures start <= Nth(start, step, k)
  {
  }

  /** The progression is strictly ascending. */
  lemma {:induction false} StepsAscending(lfe: int, rge: int, cis: int, step: int)
    requires step > 0
    ensures forall i, j :: 0 <= i < j < |Steps(lfe, rge, cis, step)| ==>
      Steps(lfe, rge, cis, step)[i] < Steps(lfe, rge, cis, step)[j]
    decreases rge - cis
  {
    if cis <= rge {
      var rest := Steps(lfe, rge, cis + step, step);
      StepsAscending(lfe, rge, cis + step, step);
      forall j | 0 <= j < |rest| ensures cis < rest[j] {
        StepsSound(lfe, rge, cis + step, step, rest[j]);
      }
    }
  }

  /**
   * The every-N generators yield exactly the terms `frt + k * step` inside
   * `[lfe, rge]`, in ascending order.
   */
  lemma StepsExactly(lfe: int, rge: int, frt: int, step: int)
    requires step > 0
    ensures forall x :: x in Steps(lfe, rge, frt, step) <==>
      lfe <= x <= rge && exists k: nat :: Nth(frt, step, k) == x
    ensures forall i, j :: 0 <= i < j < |Steps(lfe, rge, frt, step)| ==>
      Steps(lfe, rge, frt, step)[i] < Steps(lfe, rge, frt, step)[j]
  {
    forall x | x in Steps(lfe, rge, frt, step)
      ensures lfe <= x <= rge && exists k: nat :: Nth(frt, step, k) == x
    {
      StepsSound(lfe, rge, frt, step, x);
    }
    forall x | lfe <= x <= rge && (exists k: nat :: Nth(frt, step, k) == x)
      ensures x in Steps(lfe, rge, frt, step)
    {
      var k: nat :| Nth(frt, step, k) == x;
      StepsComplete(lfe, rge, frt, step, k);
    }
    StepsAscending(lfe, rge, frt, step);
  }

  /** A single occurrence is a progression whose second term already lies past the window. */
  lemma NoRecurrenceIsOneStep(lfe: int, rge: int, frt: int, fromDayEnd: int, step: int)
    requires step > 0 && frt + step > rge
    ensures NoRecurrenceDates(lfe, Some(rge), frt, fromDayEnd) == Steps(lfe, rge, frt, step)
  {
    if frt <= rge {
      assert Steps(lfe, rge, frt + step, step) == [];
      assert Steps(lfe, rge, frt, step) == (if lfe <= frt then [frt] else []) + [];
    }
  }

  /** `(frt..rge).step(step)` including Ruby's argument checks (a nil end cannot form a range). */
  function EveryNDates(lfe: int, rge: Option<int>, frt: int, step: int): (r: Result<seq<int>, Failure>)
    ensures r.Err? <==> rge.None? || step <= 0
  {
    if rge.None? then Err(ArgumentError("bad value for range"))
    else if step < 0 then Err(ArgumentError("step can't be negative"))
    else if step == 0 then Err(ArgumentError("step can't be 0"))
    else Ok(Steps(lfe, rge.value, frt, step))
  }

  /** `recur_every_days_of_week.split(',').collect(&:to_i)`. */
  function WeekDays(list: string): (r: seq<int>)
    ensures |r| == |Split(list, ',')|
  {
    var parts := Split(list, ',');
    seq(|parts|, i requires 0 <= i < |parts| => ToI(parts[i]))
  }

  /** The first day on or after `frt` that falls on weekday `wday`. */
  function FirstCandidate(frt: int, wday: int, fromWday: int): int {
    frt + ((wday - fromWday) % 7) * DAY_IN_SECONDS
  }

  /** The first candidate is 0 to 6 whole days after `frt`, on the requested weekday. */
  lemma FirstCandidateWeekday(frt: int, wday: int, fromWday: int)
    ensures var days := (wday - fromWday) % 7;
      0 <= days < 7 && FirstCandidate(frt, wday, fromWday) == frt + days * DAY_IN_SECONDS &&
      (fromWday + days) % 7 == wday % 7
  {
    var days := (wday - fromWday) % 7;
    var q := (wday - fromWday) / 7;
    assert wday - fromWday == 7 * q + days;
    assert fromWday + days == wday - 7 * q;
    ModuloShift(wday, q);
  }

  lemma ModuloShift(w: int, q: int)
    ensures (w - 7 * q) % 7 == w % 7
  {
    var r := w % 7;
    assert w == 7 * (w / 7) + r;
    assert w - 7 * q == 7 * (w / 7 - q) + r;
  }

  /** The days-of-week occurrences: for each listed weekday in turn, its weekly progression. */
  function DaysOfWeekSpec(lfe: int, rge: int, frt: int, fromWday: int, wdays: seq<int>): seq<int> {
    if wdays == [] then []
    else
      DaysOfWeekSpec(lfe, rge, frt, fromWday, wdays[..|wdays| - 1]) +
      Steps(lfe, rge, FirstCandidate(frt, wdays[|wdays| - 1], fromWday), WEEK_IN_SECONDS)
  }

  /** `recur_every_days_of_week_dates` with a non-nil right edge. */
  method DaysOfWeekDates(lfe: int, rge: int, frt: int, fromWday: int, list: string) returns (arr: seq<int>)
    ensures arr == DaysOfWeekSpec(lfe, rge, frt, fromWday, WeekDays(list))
  {
    var wdays := WeekDays(list);
    arr := [];
    var n := 0;
    while n < |wdays|
      invariant 0 <= n <= |wdays|
      invariant arr == DaysOfWeekSpec(lfe, rge, frt, fromWday, wdays[..n])
    {
      assert wdays[..n + 1][..n] == wdays[..n];
      var dates := StepDates(lfe, rge, FirstCandidate(frt, wdays[n], fromWday), WEEK_IN_SECONDS);
      arr := arr + dates;
      n := n + 1;
    }
    assert wdays[..|wdays|] == wdays;
  }

  /**
   * Every days-of-week occurrence lies in the window and is a whole number of
   * weeks after the first candidate of one of the listed weekdays.
   */
  lemma {:induction false} DaysOfWeekSound(lfe: int, rge: int, frt: int, fromWday: int, wdays: seq<int>, x: int)
    requires x in DaysOfWeekSpec(lfe, rge, frt, fromWday, wdays)
    ensures lfe <= x <= rge
    ensures exists j, k: nat :: 0 <= j < |wdays| && Nth(FirstCandidate(frt, wdays[j], fromWday), WEEK_IN_SECONDS, k) == x
  {
    var init := wdays[..|wdays| - 1];
    var last := wdays[|wdays| - 1];
    if x in DaysOfWeekSpec(lfe, rge, frt, fromWday, init) {
      DaysOfWeekSound(lfe, rge, frt, fromWday, init, x);
      var j, k: nat :| 0 <= j < |init| && Nth(FirstCandidate(frt, init[j], fromWday), WEEK_IN_SECONDS, k) == x;
      assert init[j] == wdays[j];
    } else {
      StepsSound(lfe, rge, FirstCandidate(frt, last, fromWday), WEEK_IN_SECONDS, x);
      var k: nat :| Nth(FirstCandidate(frt, last, fromWday), WEEK_IN_SECONDS, k) == x;
      assert Nth(FirstCandidate(frt, wdays[|wdays| - 1], fromWday), WEEK_IN_SECONDS, k) == x;
    }
  }

  /** Each listed weekday contributes every weekly candidate of its own inside the window. */
  lemma {:induction false} DaysOfWeekComplete(lfe: int, rge: int, frt: int, fromWday: int, wdays: seq<int>, j: nat, k: nat)
    requires j < |wdays|
    requires lfe <= Nth(FirstCandidate(frt, wdays[j], fromWday), WEEK_IN_SECONDS, k) <= rge
    ensures Nth(FirstCandidate(frt, wdays[j], fromWday), WEEK_IN_SECONDS, k) in DaysOfWeekSpec(lfe, rge, frt, fromWday, wdays)
  {
    var init := wdays[..|wdays| - 1];
    if j == |wdays| - 1 {
      StepsComplete(lfe, rge, FirstCandidate(frt, wdays[j], fromWday), WEEK_IN_SECONDS, k);
    } else {
      assert init[j] == wdays[j];
      DaysOfWeekComplete(lfe, rge, frt, fromWday, init, j, k);
    }
  }

  // ----- fetch_events_time -----

  predicate IsNoRecurrence(s: Schedule) { s.recurrenceType == NO_RECURRENCE }
  predicate IsEveryNDays(s: Schedule) { s.recurrenceType == EVERY_N_DAYS }
  predicate IsEveryNWeeks(s: Schedule) { s.recurrenceType == EVERY_N_WEEKS }
  predicate IsEveryNMonths(s: Schedule) { s.recurrenceType == EVERY_N_MONTHS }
  predicate IsEveryNYears(s: Schedule) { s.recurrenceType == EVERY_N_YEARS }
  predicate IsEveryDaysOfWeek(s: Schedule) { s.recurrenceType == EVERY_DAYS_OF_WEEK }

  const NIL_COMPARISON: string := "comparison of Integer with nil failed"

  /**
   * The occurrences `fetch_events_time` picks by recurrence type.
   * `calendarDates` stands for what the month and year generators return
   * for a right edge: their stepping is calendar arithmetic, supplied by the
   * caller. Without a right edge their first `cis > rge` raises.
   */
  function FetchSpec(s: Schedule, lfe: int, rge: Option<int>, calendarDates: seq<int>): Result<seq<int>, Failure> {
    var frt := s.fromDayStart;
    if IsNoRecurrence(s) then Ok(NoRecurrenceDates(lfe, rge, frt, s.fromDayEnd))
    else if IsEveryNDays(s) then EveryNDates(lfe, rge, frt, s.recurEveryNDays * DAY_IN_SECONDS)
    else if IsEveryNWeeks(s) then EveryNDates(lfe, rge, frt, s.recurEveryNWeeks * WEEK_IN_SECONDS)
    else if IsEveryNMonths(s) || IsEveryNYears(s) then
      if rge.None? then Err(ArgumentError(NIL_COMPARISON)) else Ok(calendarDates)
    else if IsEveryDaysOfWeek(s) then
      if WeekDays(s.recurEveryDaysOfWeek) == [] then Ok([])
      else if rge.None? then Err(ArgumentError(NIL_COMPARISON))
      else Ok(DaysOfWeekSpec(lfe, rge.value, frt, s.fromWday, WeekDays(s.recurEveryDaysOfWeek)))
    else Ok([])
  }

  /** `fetch_events_time`. */
  method FetchEventsTime(s: Schedule, lfe: int, rge: Option<int>, calendarDates: seq<int>)
    returns (r: Result<seq<int>, Failure>)
    ensures r == FetchSpec(s, lfe, rge, calendarDates)
  {
    var frt := s.fromDayStart;
    if IsNoRecurrence(s) {
      r := Ok(NoRecurrenceDates(lfe, rge, frt, s.fromDayEnd));
    } else if IsEveryNDays(s) || IsEveryNWeeks(s) {
      var step := if IsEveryNDays(s) then s.recurEveryNDays * DAY_IN_SECONDS else s.recurEveryNWeeks * WEEK_IN_SECONDS;
      if rge.None? {
        r := Err(ArgumentError("bad value for range"));
      } else if step < 0 {
        r := Err(ArgumentError("step can't be negative"));
      } else if step == 0 {
        r := Err(ArgumentError("step can't be 0"));
      } else {
        var dates := StepDates(lfe, rge.value, frt, step);
        r := Ok(dates);
      }
    } else if IsEveryNMonths(s) || IsEveryNYears(s) {
      if rge.None? {
        r := Err(ArgumentError(NIL_COMPARISON));
      } else {
        r := Ok(calendarDates);
      }
    } else if IsEveryDaysOfWeek(s) {
      if WeekDays(s.recurEveryDaysOfWeek) == [] {
        r := Ok([]);
      } else if rge.None? {
        r := Err(ArgumentError(NIL_COMPARISON));
      } else {
        var dates := DaysOfWeekDates(lfe, rge.value, frt, s.fromWday, s.recurEveryDaysOfWeek);
        r := Ok(dates);
      }
    } else {
      r := Ok([]);
    }
  }

  /** A recurrence type outside the six known ones yields no occurrences. */
  lemma UnknownTypeHasNoOccurrences(s: Schedule, lfe: int, rge: Option<int>, calendarDates: seq<int>)
    requires s.recurrenceType !in RECURRENCE_TYPES
    ensures FetchSpec(s, lfe, rge, calendarDates) == Ok([])
  {
  }

  /** A month or year schedule without a right edge fails on comparing with nil. */
  lemma OpenEndedCalendarRaises(s: Schedule, lfe: int, calendarDates: seq<int>)
    requires IsEveryNMonths(s) || IsEveryNYears(s)
    ensures FetchSpec(s, lfe, None, calendarDates) == Err(ArgumentError(NIL_COMPARISON))
  {
  }

  /** A positive day interval gives exactly the in-window days `frt + k * interval` days apart. */
  lemma EveryNDaysExactly(s: Schedule, lfe: int, rge: int, calendarDates: seq<int>)
    requires IsEveryNDays(s) && s.recurEveryNDays > 0
    ensures FetchSpec(s, lfe, Some(rge), calendarDates).Ok?
    ensures forall x :: x in FetchSpec(s, lfe, Some(rge), calendarDates).value <==>
      lfe <= x <= rge && exists k: nat :: Nth(s.fromDayStart, s.recurEveryNDays * DAY_IN_SECONDS, k) == x
  {
    StepsExactly(lfe, rge, s.fromDayStart, s.recurEveryNDays * DAY_IN_SECONDS);
  }

  /** A positive week interval gives exactly the in-window days `frt + k * interval` weeks apart. */
  lemma EveryNWeeksExactly(s: Schedule, lfe: int, rge: int, calendarDates: seq<int>)
    requires IsEveryNWeeks(s) && s.recurEveryNWeeks > 0
    ensures FetchSpec(s, lfe, Some(rge), calendarDates).Ok?
    ensures forall x :: x in FetchSpec(s, lfe, Some(rge), calendarDates).value <==>
      lfe <= x <= rge && exists k: nat :: Nth(s.fromDayStart, s.recurEveryNWeeks * WEEK_IN_SECONDS, k) == x
  {
    StepsExactly(lfe, rge, s.fromDayStart, s.recurEveryNWeeks * WEEK_IN_SECONDS);
  }

  /** An interval of zero or less is refused with Range#step's ArgumentError. */
  lemma NonPositiveIntervalRaises(s: Schedule, lfe: int, rge: int, calendarDates: seq<int>)
    requires IsEveryNDays(s) && s.recurEveryNDays <= 0
    ensures FetchSpec(s, lfe, Some(rge), calendarDates).Err?
  {
  }

  // ----- the window of `events` and the expansion of occurrences -----

  /**
   * The window `events` passes on: the left edge is the start of the
   * requested day, else of `from_time`'s day; the right edge is the smaller
   * of the day before the requested end (the end is exclusive) and the end
   * of `recurrence_end`'s day, whichever are given.
   */
  function EventsWindow(s: Schedule, rangeBeginDayStart: Option<int>, rangeEndDayEnd: Option<int>): (w: (int, Option<int>))
    ensures w.0 == if rangeBeginDayStart.Some? then rangeBeginDayStart.value else s.fromDayStart
    ensures w.1.None? <==> rangeEndDayEnd.None? && s.recurrenceEnd.None?
    ensures rangeEndDayEnd.Some? ==> w.1.Some? && w.1.value <= rangeEndDayEnd.value - DAY_IN_SECONDS
    ensures s.recurrenceEnd.Some? ==> w.1.Some? && w.1.value <= s.recurrenceEnd.value
    ensures w.1.Some? ==> (rangeEndDayEnd.Some? && w.1.value == rangeEndDayEnd.value - DAY_IN_SECONDS) ||
                          (s.recurrenceEnd.Some? && w.1.value == s.recurrenceEnd.value)
  {
    var lfe := if rangeBeginDayStart.Some? then rangeBeginDayStart.value else s.fromDayStart;
    var requested := match rangeEndDayEnd case Some(e) => Some(e - DAY_IN_SECONDS) case None => None;
    var rge :=
      match (requested, s.recurrenceEnd)
      case (Some(a), Some(b)) => Some(if a <= b then a else b)
      case (Some(a), None) => Some(a)
      case (None, b) => b;
    (lfe, rge)
  }

  /** The occurrence days `events` asks `fetch_events_time` for: those within its window. */
  function WindowedOccurrences(s: Schedule, rangeBeginDayStart: Option<int>, rangeEndDayEnd: Option<int>,
                               calendarDates: seq<int>): Result<seq<int>, Failure> {
    FetchSpec(s, EventsWindow(s, rangeBeginDayStart, rangeEndDayEnd).0, EventsWindow(s, rangeBeginDayStart, rangeEndDayEnd).1, calendarDates)
  }

  /** The start of the event on an occurrence day: the day plus `from_time`'s hour and minute. */
  function EventStart(s: Schedule, occurrence: int): int {
    occurrence + s.fromHour * HOUR_IN_SECONDS + s.fromMin * MINUTE_IN_SECONDS
  }

  /** The (from, thru) pairs of the occurrences whose start is not filtered out, in occurrence order. */
  function Expanded(s: Schedule, occurrences: seq<int>, filter: seq<int>): seq<(int, int)> {
    if occurrences == [] then []
    else
      var from := EventStart(s, occurrences[|occurrences| - 1]);
      Expanded(s, occurrences[..|occurrences| - 1], filter) +
      (if from in filter then [] else [(from, from + s.duration)])
  }

  /** Every expanded event lasts `duration` and starts at the start of an occurrence that is not filtered out. */
  lemma {:induction false} ExpandedSound(s: Schedule, occurrences: seq<int>, filter: seq<int>, p: (int, int))
    requires p in Expanded(s, occurrences, filter)
    ensures p.1 - p.0 == s.duration && p.0 !in filter
    ensures exists i :: 0 <= i < |occurrences| && EventStart(s, occurrences[i]) == p.0
  {
    var n := |occurrences| - 1;
    var init := occurrences[..n];
    if p in Expanded(s, init, filter) {
      ExpandedSound(s, init, filter, p);
      var i :| 0 <= i < |init| && EventStart(s, init[i]) == p.0;
      assert occurrences[i] == init[i];
    } else {
      assert EventStart(s, occurrences[n]) == p.0;
    }
  }

  /** Every occurrence whose start is not filtered out gives an event of length `duration`. */
  lemma {:induction false} ExpandedComplete(s: Schedule, occurrences: seq<int>, filter: seq<int>, i: nat)
    requires i < |occurrences| && EventStart(s, occurrences[i]) !in filter
    ensures (EventStart(s, occurrences[i]), EventStart(s, occurrences[i]) + s.duration) in Expanded(s, occurrences, filter)
  {
    var n := |occurrences| - 1;
    var init := occurrences[..n];
    if i < n {
      assert init[i] == occurrences[i];
      ExpandedComplete(s, init, filter, i);
    }
  }

  /** An empty filter keeps one event per occurrence. */
  lemma {:induction false} ExpandedUnfiltered(s: Schedule, occurrences: seq<int>)
    ensures |Expanded(s, occurrences, [])| == |occurrences|
  {
    if occurrences != [] {
      ExpandedUnfiltered(s, occurrences[..|occurrences| - 1]);
    }
  }

  // ----- find_conflicted_events -----

  predicate SortedBy<T>(s: seq<T>, key: T -> int) {
    forall i, j :: 0 <= i < j < |s| ==> key(s[i]) <= key(s[j])
  }

  /** `sort!` by a key; Ruby's sort is not stable, so only the order of the keys is promised. */
  method SortBy<T>(a: array<T>, key: T -> int)
    modifies a
    ensures SortedBy(a[..], key)
    ensures multiset(a[..]) == multiset(old(a[..]))
  {
    var i := 0;
    while i < a.Length
      invariant 0 <= i <= a.Length
      invariant SortedBy(a[..i], key)
      invariant multiset(a[..]) == multiset(old(a[..]))
    {
      InsertLast(a, i, key);
      i := i + 1;
    }
    assert a[..a.Length] == a[..];
  }

  /** Moves `a[i]` down into the sorted prefix `a[..i]`. */
  method InsertLast<T>(a: array<T>, i: nat, key: T -> int)
    requires i < a.Length && SortedBy(a[..i], key)
    modifies a
    ensures SortedBy(a[..i + 1], key)
    ensures multiset(a[..]) == multiset(old(a[..]))
  {
    var j := i;
    while j > 0 && key(a[j - 1]) > key(a[j])
      invariant 0 <= j <= i
      invariant forall k, l :: 0 <= k < l <= i && k != j && l != j ==> key(a[k]) <= key(a[l])
      invariant forall l :: j < l <= i ==> key(a[j]) <= key(a[l])
      invariant multiset(a[..]) == multiset(old(a[..]))
    {
      Swap(a, j - 1, j);
      j := j - 1;
    }
  }

  method Swap<T>(a: array<T>, i: nat, j: nat)
    requires i < j < a.Length
    modifies a
    ensures a[..] == old(a[..])[i := old(a[j])][j := old(a[i])]
    ensures multiset(a[..]) == multiset(old(a[..]))
  {
    a[i], a[j] := a[j], a[i];
  }

  function Min(a: int, b: int): int { if a <= b then a else b }

  /** One reported conflict: the two events and the overlap window `[next.from, min(thru, next.thru)]`. */
  datatype Window<T> = Window(first: T, second: T, fromSecs: int, thruSecs: int)

  /** The conflicts of adjacent pairs whose first event ends after the next one starts, in order. */
  function Conflicts<T>(s: seq<T>, from: T -> int, thru: T -> int): (r: seq<Window<T>>)
    ensures |r| <= if |s| == 0 then 0 else |s| - 1
  {
    if |s| < 2 then []
    else
      var a, b := s[|s| - 2], s[|s| - 1];
      Conflicts(s[..|s| - 1], from, thru) +
      (if thru(a) > from(b) then [Window(a, b, from(b), Min(thru(a), thru(b)))] else [])
  }

  /** The scan after the sort: each event against the one after it. */
  method AdjacentConflicts<T>(s: seq<T>, from: T -> int, thru: T -> int) returns (arr: seq<Window<T>>)
    ensures arr == Conflicts(s, from, thru)
  {
    arr := [];
    var idx := 0;
    while idx < |s|
      invariant 0 <= idx <= |s|
      invariant arr == Conflicts(s[..Min(idx + 1, |s|)], from, thru)
    {
      if idx + 1 < |s| {
        var event, next := s[idx], s[idx + 1];
        assert s[..idx + 2][..idx + 1] == s[..idx + 1];
        if thru(event) > from(next) {
          arr := arr + [Window(event, next, from(next), Min(thru(event), thru(next)))];
        }
      }
      idx := idx + 1;
    }
    assert s[..|s|] == s;
  }

  /**
   * Every reported conflict comes from an adjacent pair whose first event
   * ends after the second starts, and every such pair is reported.
   */
  lemma {:induction false} ConflictsExactly<T>(s: seq<T>, from: T -> int, thru: T -> int)
    ensures forall w :: w in Conflicts(s, from, thru) ==>
      exists i :: 0 <= i < |s| - 1 && thru(s[i]) > from(s[i + 1]) &&
        w == Window(s[i], s[i + 1], from(s[i + 1]), Min(thru(s[i]), thru(s[i + 1])))
    ensures forall i :: 0 <= i < |s| - 1 && thru(s[i]) > from(s[i + 1]) ==>
      Window(s[i], s[i + 1], from(s[i + 1]), Min(thru(s[i]), thru(s[i + 1]))) in Conflicts(s, from, thru)
  {
    if |s| >= 2 {
      var init := s[..|s| - 1];
      ConflictsExactly(init, from, thru);
      forall i | 0 <= i < |init| ensures init[i] == s[i] { }
    }
  }

  /** With events that do not end before they start, each overlap window is non-empty and inside both events. */
  lemma {:induction false} ConflictWindowsInside<T>(s: seq<T>, from: T -> int, thru: T -> int)
    requires forall i :: 0 <= i < |s| ==> from(s[i]) <= thru(s[i])
    ensures forall w :: w in Conflicts(s, from, thru) ==>
      w.fromSecs <= w.thruSecs && w.fromSecs == from(w.second) && w.thruSecs <= thru(w.first) &&
      w.thruSecs <= thru(w.second) && w.fromSecs < thru(w.first)
  {
    if |s| >= 2 {
      ConflictWindowsInside(s[..|s| - 1], from, thru);
    }
  }

  // ----- validations -----

  /** The attributes the validations read; None is nil. */
  datatype Attributes = Attributes(
    recurrenceType: Option<string>,
    recurrenceEnd: Option<int>,
    recurEveryNDays: Option<int>,
    recurEveryNWeeks: Option<int>,
    recurEveryNMonths: Option<int>,
    recurEveryNYears: Option<int>,
    recurEveryDaysOfWeek: Option<string>)

  /** One validation error: the attribute and the message. */
  type ValidationError = (string, string)

  const BLANK: string := "can't be blank"
  const EXCLUDED: string := "is not included in the list"

  predicate PresentText(s: Option<string>) { s.Some? && !IsBlank(s.value) }

  function Require(present: bool, attribute: string): seq<ValidationError> {
    if present then [] else [(attribute, BLANK)]
  }

  /** `presence: true, inclusion: { in: RECURRENCE_TYPES }` on `recurrence_type`. */
  function TypeErrors(a: Attributes): seq<ValidationError> {
    Require(PresentText(a.recurrenceType), "recurrence_type") +
    (if a.recurrenceType.Some? && a.recurrenceType.value in RECURRENCE_TYPES then [] else [("recurrence_type", EXCLUDED)])
  }

  predicate HasType(a: Attributes, t: string) { a.recurrenceType == Some(t) }

  /** The conditional presence rules, in declaration order. */
  function ConditionalErrors(a: Attributes): seq<ValidationError> {
    (if HasType(a, NO_RECURRENCE) then [] else Require(a.recurrenceEnd.Some?, "recurrence_end")) +
    (if HasType(a, EVERY_N_DAYS) then Require(a.recurEveryNDays.Some?, "recur_every_n_days") else []) +
    (if HasType(a, EVERY_N_WEEKS) then Require(a.recurEveryNWeeks.Some?, "recur_every_n_weeks") else []) +
    (if HasType(a, EVERY_N_MONTHS) then Require(a.recurEveryNMonths.Some?, "recur_every_n_months") else []) +
    (if HasType(a, EVERY_N_YEARS) then Require(a.recurEveryNYears.Some?, "recur_every_n_years") else []) +
    (if HasType(a, EVERY_DAYS_OF_WEEK) then Require(PresentText(a.recurEveryDaysOfWeek), "recur_every_days_of_week") else [])
  }

  /** The validity the rules express, stated directly. */
  predicate ValidSchedule(a: Attributes) {
    a.recurrenceType.Some? && a.recurrenceType.value in RECURRENCE_TYPES &&
    (!HasType(a, NO_RECURRENCE) ==> a.recurrenceEnd.Some?) &&
    (HasType(a, EVERY_N_DAYS) ==> a.recurEveryNDays.Some?) &&
    (HasType(a, EVERY_N_WEEKS) ==> a.recurEveryNWeeks.Some?) &&
    (HasType(a, EVERY_N_MONTHS) ==> a.recurEveryNMonths.Some?) &&
    (HasType(a, EVERY_N_YEARS) ==> a.recurEveryNYears.Some?) &&
    (HasType(a, EVERY_DAYS_OF_WEEK) ==> PresentText(a.recurEveryDaysOfWeek))
  }

  lemma TypeErrorsExactly(a: Attributes)
    ensures TypeErrors(a) == [] <==> a.recurrenceType.Some? && a.recurrenceType.value in RECURRENCE_TYPES
  {
    if a.recurrenceType.Some? && a.recurrenceType.value in RECURRENCE_TYPES {
      var t := a.recurrenceType.value;
      assert !IsBlank(t) by {
        assert t == NO_RECURRENCE || t == EVERY_N_DAYS || t == EVERY_N_WEEKS ||
               t == EVERY_N_MONTHS || t == EVERY_N_YEARS || t == EVERY_DAYS_OF_WEEK;
        assert !IsWhiteSpace(t[0]);
      }
    }
  }

  lemma {:induction false} ConditionalErrorsExactly(a: Attributes)
    ensures ConditionalErrors(a) == [] <==>
      (!HasType(a, NO_RECURRENCE) ==> a.recurrenceEnd.Some?) &&
      (HasType(a, EVERY_N_DAYS) ==> a.recurEveryNDays.Some?) &&
      (HasType(a, EVERY_N_WEEKS) ==> a.recurEveryNWeeks.Some?) &&
      (HasType(a, EVERY_N_MONTHS) ==> a.recurEveryNMonths.Some?) &&
      (HasType(a, EVERY_N_YEARS) ==> a.recurEveryNYears.Some?) &&
      (HasType(a, EVERY_DAYS_OF_WEEK) ==> PresentText(a.recurEveryDaysOfWeek))
  {
  }
}
