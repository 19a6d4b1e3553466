/**
 * The part of JavaScript's `Date` the application relies on, on integer time.
 * A timestamp is a number of milliseconds; a day number counts whole days from
 * day 0 (1970-01-01, a Thursday). `setHours(0, 0, 0, 0)` becomes `Midnight` and
 * `getDay()` becomes `Weekday`. Time zones and daylight saving are not modelled:
 * every day is `DayMs` long.
 */
module Calendar {

  const DayMs: int := 86_400_000

  /** The weekday of day 0 (1970-01-01): Thursday. */
  const EpochWeekday: int := 4

  /** `d.setHours(0, 0, 0, 0)`: the start of the day that contains `t`. */
  function Midnight(t: int): (m: int)
    ensures m <= t < m + DayMs
    ensures m % DayMs == 0
  {
    t - t % DayMs
  }

  /** The day number of the day that contains `t`. */
  function DayOf(t: int): (d: int)
    ensures Midnight(t) == d * DayMs
  {
    t / DayMs
  }

  /** `getDay()` of the given day number: 0 is Sunday, 6 is Saturday. */
  function Weekday(day: int): (w: int)
    ensures 0 <= w < 7
  {
    (day + EpochWeekday) % 7
  }

  /** Weekdays repeat every seven days. */
  lemma WeekdayPeriodic(day: int)
    ensures Weekday(day + 7) == Weekday(day)
  {
  }

  /**
   * `yesterday.setDate(today.getDate() - 1); yesterday.getDay()`: the day before has the
   * previous weekday, wrapping from Sunday (0) back to Saturday (6).
   */
  lemma YesterdayWeekday(day: int)
    ensures Weekday(day - 1) == (Weekday(day) + 6) % 7
    ensures Weekday(day) == 0 ==> Weekday(day - 1) == 6
    ensures Weekday(day) > 0 ==> Weekday(day - 1) == Weekday(day) - 1
  {
  }

  /** A time lies before the midnight of `now` exactly when it falls on an earlier day. */
  lemma {:induction false} BeforeMidnightIffEarlierDay(t: int, now: int)
    ensures t < Midnight(now) <==> DayOf(t) < DayOf(now)
  {
    var dn, dt := DayOf(now), DayOf(t);
    assert Midnight(now) == dn * DayMs && Midnight(t) == dt * DayMs;
    if dt < dn {
      assert (dt + 1) * DayMs <= dn * DayMs;
    } else {
      assert dn * DayMs <= dt * DayMs;
    }
  }
}
