/** `utils/dateUtils.js`: truncating an instant to its calendar day and the
    inclusive millisecond range of that day. Every session key and every
    "same day" photo check goes through these two functions. */
module DateUtils {
  import opened Common
  import opened Time

  /** What a caller hands to `normalizeDate`: nothing (or another falsy
      value), something `new Date` cannot parse, or a valid instant. */
  datatype DateInput = Falsy | Unparsable | Instant(ms: int)

  /** `normalizeDate(input)`: a falsy input means "now"; an unparsable one
      gives `null`; otherwise midnight of the input's day. */
  function NormalizeDate(input: DateInput, now: int): (r: Option<int>)
    ensures r.None? <==> input.Unparsable?
    ensures r.Some? ==> IsMidnight(r.value)
    ensures input.Instant? ==> r.value <= input.ms < r.value + MsPerDay
    ensures input.Falsy? ==> r.value <= now < r.value + MsPerDay
  {
    StartOfDayBounds(now);
    match input
    case Falsy => Some(StartOfDay(now))
    case Unparsable => None
    case Instant(t) => StartOfDayBounds(t); Some(StartOfDay(t))
  }

  /** The two bounds `getDayRange` returns; both `null` when the input
      cannot be normalised. */
  datatype DayRange = DayRange(startOfDay: Option<int>, endOfDay: Option<int>)

  /** `getDayRange(input)`: from 00:00:00.000 to 23:59:59.999 of the day. */
  function GetDayRange(input: DateInput, now: int): (r: DayRange)
    ensures r.startOfDay == NormalizeDate(input, now)
    ensures r.endOfDay.Some? <==> r.startOfDay.Some?
    ensures r.endOfDay.Some? ==> r.endOfDay.value == r.startOfDay.value + MsPerDay - 1
  {
    match NormalizeDate(input, now)
    case None => DayRange(None, None)
    case Some(d) => DayRange(Some(d), Some(SetHours(d, 23, 59, 59, 999)))
  }

  /** Whether `t` lies inside a (non-null) day range, bounds included, as the
      `$gte`/`$lte` query on `createdAt` tests it. */
  predicate InRange(r: DayRange, t: int)
  {
    r.startOfDay.Some? && r.endOfDay.Some? && r.startOfDay.value <= t <= r.endOfDay.value
  }

  /** Normalising an already normalised date changes nothing. */
  lemma {:induction false} NormalizeIdempotent(input: DateInput, now: int, later: int)
    requires !input.Unparsable?
    ensures NormalizeDate(Instant(NormalizeDate(input, now).value), later) == NormalizeDate(input, now)
  {
    var d := NormalizeDate(input, now).value;
    DayOfInstant(d, d);
  }

  /** The normalised date never lies after the instant it came from. */
  lemma NormalizeNotLater(t: int, now: int)
    ensures NormalizeDate(Instant(t), now).value <= t
  {
  }

  /** An instant lies in the day range of `d` exactly when it is on `d`'s day. */
  lemma {:induction false} InRangeIffSameDay(d: int, now: int, t: int)
    ensures InRange(GetDayRange(Instant(d), now), t) <==> SameDay(d, t)
  {
    SameDayIff(d, t);
  }

  /** Two instants of the same day have the same day range. */
  lemma {:induction false} SameDaySameRange(a: int, b: int, now: int)
    requires SameDay(a, b)
    ensures GetDayRange(Instant(a), now) == GetDayRange(Instant(b), now)
  {
  }
}
