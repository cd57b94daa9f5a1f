/**
 * Wall-clock time as a plain integer: minutes since an epoch that falls on a
 * Monday at midnight.  Python's `datetime` values become such integers, and
 * `datetime.now()` becomes a parameter of every operation that reads it.
 */
module Clock {
  import opened Wrappers

  const MinutesPerHour: int := 60
  const MinutesPerDay: int := 1440

  /** The calendar day of an instant, counted from the epoch (`datetime.date()`). */
  function Date(t: int): int
  {
    t / MinutesPerDay
  }

  /** The hour of the day (`datetime.hour`). */
  function Hour(t: int): (h: int)
    ensures 0 <= h < 24
  {
    (t % MinutesPerDay) / MinutesPerHour
  }

  /** The day of the week, 0 for Monday to 6 for Sunday (`datetime.weekday()`). */
  function Weekday(t: int): (w: int)
    ensures 0 <= w < 7
  {
    Date(t) % 7
  }

  /** Midnight at the start of the day of `t`. */
  function Midnight(t: int): (m: int)
    ensures m <= t < m + MinutesPerDay
    ensures Date(m) == Date(t)
  {
    Date(t) * MinutesPerDay
  }

  /** The instant `h` hours after the midnight of `t` (`datetime.replace(hour=h, minute=0, ...)`). */
  function AtHour(t: int, h: int): (r: int)
    requires 0 <= h < 24
    ensures Date(r) == Date(t) && Hour(r) == h
  {
    Midnight(t) + h * MinutesPerHour
  }

  function Abs(x: int): nat
  {
    if x < 0 then -x else x
  }

  /** `abs((a.date() - b.date()).days)`. */
  function DaysApart(a: int, b: int): nat
  {
    Abs(Date(a) - Date(b))
  }

  /**
   * `(later - earlier).days` for two instants: the whole days of the difference,
   * rounded down as Python's `timedelta.days` is.
   */
  function DaysElapsed(earlier: int, later: int): int
  {
    (later - earlier) / MinutesPerDay
  }

  /** `max(0, 10 - days)` for a preferred date, 0 without one. */
  function DateProximity(slotStart: int, preferredDate: Option<int>): (b: int)
    ensures 0 <= b <= 10
    ensures preferredDate.None? ==> b == 0
    ensures preferredDate.Some? ==> (b == 10 <==> Date(slotStart) == Date(preferredDate.value))
    ensures preferredDate.Some? ==> (b == 0 <==> DaysApart(slotStart, preferredDate.value) >= 10)
  {
    match preferredDate
    case None => 0
    case Some(d) => if DaysApart(slotStart, d) < 10 then 10 - DaysApart(slotStart, d) else 0
  }
}
