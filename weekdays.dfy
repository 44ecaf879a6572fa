/**
  The weekday resolver of deskbird.py (get_next_occurrence) and the
  weekday-label table that main uses to read target_days.

  A calendar date is a day number: the proleptic Gregorian ordinal that
  Python's date.toordinal() gives, day 1 being Monday 1 January of year 1.
  Adding a timedelta of k days adds k to the ordinal.
*/
module Weekdays {
  import opened Wrappers

  /** Weekday of a day number, 0 = Monday .. 6 = Sunday, as date.weekday() defines it. */
  function WeekdayOf(day: int): int
  {
    (day + 6) % 7
  }

  /** The weekday k places round the week from the given one. */
  function Rotate(weekday: int, k: int): int
  {
    (weekday + k) % 7
  }

  /** Moving k days ahead moves the weekday k places round the week. */
  lemma WeekdayAfter(day: int, k: int)
    ensures WeekdayOf(day + k) == Rotate(WeekdayOf(day), k)
  {
  }

  /**
    The offset get_next_occurrence computes from today's weekday to the
    target weekday: same branches as the source.  It is the smallest
    positive offset that lands on the target weekday.
  */
  function DaysAhead(todayWeekday: int, target: int): (d: int)
    requires 0 <= todayWeekday < 7 && 0 <= target < 7
    ensures 1 <= d <= 7
    ensures Rotate(todayWeekday, d) == target
    ensures forall k :: 1 <= k < d ==> Rotate(todayWeekday, k) != target
  {
    if target <= todayWeekday then target + 7 - todayWeekday else target - todayWeekday
  }

  /**
    get_next_occurrence with today made an input: the first day after today
    that falls on the target weekday, provided it lies at most maxDays ahead,
    and None otherwise.
  */
  function NextOccurrence(today: int, target: int, maxDays: int): (r: Option<int>)
    requires 0 <= target < 7
    ensures r.Some? ==> today < r.value <= today + maxDays && WeekdayOf(r.value) == target
    ensures r.Some? ==> forall d :: today < d < r.value ==> WeekdayOf(d) != target
    ensures r.None? <==> forall d :: today < d <= today + maxDays ==> WeekdayOf(d) != target
  {
    var daysAhead := DaysAhead(WeekdayOf(today), target);
    NextOccurrenceFacts(today, target, daysAhead);
    if daysAhead == 0 || daysAhead > maxDays then None else Some(today + daysAhead)
  }

  /** The offset chosen by DaysAhead, restated over day numbers. */
  lemma NextOccurrenceFacts(today: int, target: int, daysAhead: int)
    requires 0 <= target < 7
    requires daysAhead == DaysAhead(WeekdayOf(today), target)
    ensures WeekdayOf(today + daysAhead) == target
    ensures forall d :: today < d < today + daysAhead ==> WeekdayOf(d) != target
  {
    WeekdayAfter(today, daysAhead);
    forall d | today < d < today + daysAhead
      ensures WeekdayOf(d) != target
    {
      WeekdayAfter(today, d - today);
    }
  }

  /** The offset get_next_occurrence uses is never 0, so its result is never today. */
  lemma NeverToday(today: int, target: int, maxDays: int)
    requires 0 <= target < 7
    ensures DaysAhead(WeekdayOf(today), target) != 0
    ensures NextOccurrence(today, target, maxDays) != Some(today)
  {
  }

  /** With the six-day window main passes, the resolver gives up exactly when the target is today's weekday. */
  lemma SixDayWindowMissesOnlyToday(today: int, target: int)
    requires 0 <= target < 7
    ensures NextOccurrence(today, target, 6).None? <==> target == WeekdayOf(today)
  {
    if target == WeekdayOf(today) {
      assert DaysAhead(WeekdayOf(today), target) == 7;
    } else {
      assert DaysAhead(WeekdayOf(today), target) <= 6;
    }
  }

  /** When the target is today's weekday the only candidate is a week ahead. */
  lemma SameWeekdayIsAWeekAhead(today: int, maxDays: int)
    ensures NextOccurrence(today, WeekdayOf(today), maxDays) ==
              if 7 <= maxDays then Some(today + 7) else None
  {
  }

  /** From a Wednesday, the next Monday within six days is five days ahead. */
  lemma WednesdayToMonday(today: int)
    requires WeekdayOf(today) == 2
    ensures NextOccurrence(today, 0, 6) == Some(today + 5)
  {
  }

  /** The weekday labels accepted in target_days, in weekday order. */
  const DayLabels: seq<string> := ["Mon", "Tue", "Wed", "Thu", "Fri", "Sat", "Sun"]

  /** The weekdays_map dictionary of main. */
  const WeekdaysMap: map<string, int> :=
    map["Mon" := 0, "Tue" := 1, "Wed" := 2, "Thu" := 3, "Fri" := 4, "Sat" := 5, "Sun" := 6]

  /** Looks a target_days label up in weekdays_map; None for an unknown label. */
  function WeekdayNumber(name: string): (r: Option<int>)
    ensures r.Some? ==> 0 <= r.value < 7 && DayLabels[r.value] == name
    ensures r.None? <==> name !in DayLabels
  {
    if name in WeekdaysMap then Some(WeekdaysMap[name]) else None
  }

  /** Every label of the table is found, at its own weekday. */
  lemma WeekdayNumberOfLabel(wd: int)
    requires 0 <= wd < 7
    ensures WeekdayNumber(DayLabels[wd]) == Some(wd)
  {
  }
}
