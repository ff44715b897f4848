/** Day numbers and weekdays for instants counted in seconds. Day 0 is
    1970-01-01, a Thursday. */
module Calendar {
  import opened Domain

  /** The day an instant falls on (`date_naive`). */
  function DayOf(instant: int): int {
    instant / SecondsPerDay
  }

  /** Seconds since midnight of an instant (`time()`). */
  function TimeOf(instant: int): (t: int)
    ensures 0 <= t < SecondsPerDay
  {
    instant % SecondsPerDay
  }

  /** Day of the week, Monday = 0 … Sunday = 6. */
  function Weekday(day: int): (w: int)
    ensures 0 <= w < 7
  {
    (day + 3) % 7
  }

  predicate IsWeekend(day: int) {
    Weekday(day) >= 5
  }

  /** Going back one day goes back one weekday. */
  lemma WeekdayPrevious(day: int)
    ensures Weekday(day - 1) == (if Weekday(day) == 0 then 6 else Weekday(day) - 1)
  {
  }

  lemma DayOfTimeOf(instant: int)
    ensures instant == DayOf(instant) * SecondsPerDay + TimeOf(instant)
  {
  }
}
