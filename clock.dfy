/**
 * Dates.  A `Time` is a number of seconds on the device's local clock, so a
 * calendar day is a block of 86400 seconds.  `Calendar.isDateInToday`,
 * `isDateInYesterday` and `date(byAdding: .day, ...)` become day-number
 * comparisons and additions of whole days.
 */
module Clock {

  type Time = int

  const SecondsPerDay: int := 86400

  /** `Date.distantPast` (1 January of year 1), in seconds from 1970. */
  const DistantPast: Time := -62135769600

  /** 1 January 2025, 00:00 local time. */
  const January1st2025: Time := 1735689600

  /** The calendar day a moment falls on. */
  function DayOf(t: Time): int {
    t / SecondsPerDay
  }

  /** `Calendar.current.isDateInToday(t)` evaluated at `now`. */
  predicate IsToday(t: Time, now: Time) {
    DayOf(t) == DayOf(now)
  }

  /** `Calendar.current.isDateInYesterday(t)` evaluated at `now`. */
  predicate IsYesterday(t: Time, now: Time) {
    DayOf(t) == DayOf(now) - 1
  }

  /** `Calendar.current.date(byAdding: .day, value: n, to: t)`. */
  function AddDays(t: Time, n: int): Time {
    t + n * SecondsPerDay
  }

  /** A moment and the same moment one day earlier are never on the same day. */
  lemma YesterdayIsNotToday(now: Time)
    ensures IsYesterday(AddDays(now, -1), now)
    ensures !IsToday(AddDays(now, -1), now)
  {
  }

  /** `Date.distantPast` is never today for a moment after 1970. */
  lemma DistantPastIsNeverToday(now: Time)
    requires now >= 0
    ensures !IsToday(DistantPast, now)
  {
  }
}
