/** Instants as integer milliseconds since the epoch, on a calendar of
    fixed-length 24-hour local days (no time zone offset, no daylight
    saving), and the `Date.prototype.setHours` the controllers use to move
    an instant within its day. */
module Time {

  const MsPerSecond: int := 1000
  const MsPerMinute: int := 60 * MsPerSecond
  const MsPerHour: int := 60 * MsPerMinute
  const MsPerDay: int := 24 * MsPerHour

  /** Midnight of the day containing `t` (Dafny's `%` is Euclidean, so this
      rounds down for instants before the epoch too). */
  function StartOfDay(t: int): int
  {
    t - t % MsPerDay
  }

  predicate IsMidnight(t: int)
  {
    t % MsPerDay == 0
  }

  predicate SameDay(a: int, b: int)
  {
    StartOfDay(a) == StartOfDay(b)
  }

  /** `d.setHours(h, m, s, ms)`: the same day, at the given time of day
      (out-of-range fields carry into neighbouring days, as in JavaScript). */
  function SetHours(t: int, h: int, m: int, s: int, ms: int): int
  {
    StartOfDay(t) + h * MsPerHour + m * MsPerMinute + s * MsPerSecond + ms
  }

  /** `StartOfDay(t)` is a midnight no later than `t`, and `t` lies inside the
      day that starts there. */
  lemma StartOfDayBounds(t: int)
    ensures IsMidnight(StartOfDay(t))
    ensures StartOfDay(t) <= t < StartOfDay(t) + MsPerDay
  {
  }

  /** A midnight `d` with `d <= t < d + MsPerDay` is the start of `t`'s day:
      each instant lies in exactly one day. */
  lemma {:induction false} DayOfInstant(d: int, t: int)
    requires IsMidnight(d) && d <= t < d + MsPerDay
    ensures StartOfDay(t) == d
  {
    StartOfDayBounds(t);
    var s := StartOfDay(t);
    assert d == (d / MsPerDay) * MsPerDay;
    assert s == (s / MsPerDay) * MsPerDay;
  }

  /** `t` and `u` share a day exactly when `u` lies in `t`'s day. */
  lemma SameDayIff(t: int, u: int)
    ensures SameDay(t, u) <==> StartOfDay(t) <= u < StartOfDay(t) + MsPerDay
  {
    StartOfDayBounds(t);
    StartOfDayBounds(u);
    if StartOfDay(t) <= u < StartOfDay(t) + MsPerDay {
      DayOfInstant(StartOfDay(t), u);
    }
  }

  /** Setting the time of day keeps the day when the new time lies inside it. */
  lemma {:induction false} SetHoursSameDay(t: int, h: int, m: int, s: int, ms: int)
    requires 0 <= h * MsPerHour + m * MsPerMinute + s * MsPerSecond + ms < MsPerDay
    ensures StartOfDay(SetHours(t, h, m, s, ms)) == StartOfDay(t)
    ensures SetHours(t, h, m, s, ms) - StartOfDay(t) == h * MsPerHour + m * MsPerMinute + s * MsPerSecond + ms
  {
    StartOfDayBounds(t);
    DayOfInstant(StartOfDay(t), SetHours(t, h, m, s, ms));
  }
}
