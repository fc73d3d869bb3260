/**
  Naive timestamps with microsecond resolution, as Python's `datetime` keeps them:
  a calendar-day ordinal plus the microsecond within that day. A `timedelta` of
  whole days moves the ordinal and leaves the time of day alone.
 */
module DateTimes {
  import opened Arith

  const MicrosPerSecond: int := 1_000_000
  const MicrosPerDay: int := 86_400_000_000

  /** A time of day, in microseconds since midnight. */
  type TimeOfDay = t: int | 0 <= t < 86_400_000_000

  datatype DateTime = DateTime(day: int, time: TimeOfDay)

  /** The wall-clock reading of a time of day. */
  datatype Clock = Clock(hour: int, minute: int, second: int, micro: int)

  predicate ValidClock(c: Clock) {
    && 0 <= c.hour < 24
    && 0 <= c.minute < 60
    && 0 <= c.second < 60
    && 0 <= c.micro < 1_000_000
  }

  /** Chronological order of timestamps. */
  predicate LessEq(a: DateTime, b: DateTime) {
    a.day < b.day || (a.day == b.day && a.time <= b.time)
  }

  /** The microsecond of the day a clock reading denotes. */
  function ToTime(c: Clock): TimeOfDay
    requires ValidClock(c)
  {
    c.hour * 3_600_000_000 + c.minute * 60_000_000 + c.second * 1_000_000 + c.micro
  }

  /** The clock reading of a time of day. */
  function ToClock(t: TimeOfDay): (c: Clock)
    ensures ValidClock(c)
  {
    var seconds := t / 1_000_000;
    var minutes := seconds / 60;
    Clock(minutes / 60, minutes % 60, seconds % 60, t % 1_000_000)
  }

  /** Reading the clock of a composed time gives back the clock it was composed from. */
  lemma ClockRoundTrip(c: Clock)
    requires ValidClock(c)
    ensures ToClock(ToTime(c)) == c
  {
    var minutes := c.hour * 60 + c.minute;
    var seconds := minutes * 60 + c.second;
    DivMod(seconds, c.micro, 1_000_000);
    DivMod(minutes, c.second, 60);
    DivMod(c.hour, c.minute, 60);
  }

  /** Composing the clock reading of a time gives back that time. */
  lemma TimeRoundTrip(t: TimeOfDay)
    ensures ToTime(ToClock(t)) == t
  {
  }

  /** `datetime.replace(hour=.., minute=.., second=.., microsecond=..)`. */
  function Replace(dt: DateTime, c: Clock): (r: DateTime)
    requires ValidClock(c)
    ensures r.day == dt.day
  {
    DateTime(dt.day, ToTime(c))
  }

  /** After `replace`, the clock reads exactly the requested hour, minute, second and microsecond. */
  lemma ReplaceSetsClock(dt: DateTime, c: Clock)
    requires ValidClock(c)
    ensures Replace(dt, c).day == dt.day
    ensures ToClock(Replace(dt, c).time) == c
  {
    ClockRoundTrip(c);
  }

  /** `dt + timedelta(days=n)`; subtraction is the negative offset. */
  function AddDays(dt: DateTime, n: int): (r: DateTime)
    ensures r.day - dt.day == n
    ensures r.time == dt.time
    ensures n >= 0 <==> LessEq(dt, r)
  {
    DateTime(dt.day + n, dt.time)
  }

  /** Going `n` days forward and then `n` days back returns to the same instant. */
  lemma AddDaysInverse(dt: DateTime, n: int)
    ensures AddDays(AddDays(dt, n), -n) == dt
  {
  }

  /** The first instant of a calendar day, 00:00:00.000000. */
  const StartOfDay: Clock := Clock(0, 0, 0, 0)
  /** The last representable instant of a calendar day, 23:59:59.999999. */
  const EndOfDay: Clock := Clock(23, 59, 59, 999_999)

  /** Replacing the clock with 00:00:00.000000 gives the first instant of the same day. */
  lemma StartOfDayBound(dt: DateTime)
    ensures Replace(dt, StartOfDay) == DateTime(dt.day, 0)
  {
    assert ToTime(StartOfDay) == 0 by {}
  }

  /** Replacing the clock with 23:59:59.999999 gives the last instant of the same day. */
  lemma EndOfDayBound(dt: DateTime)
    ensures Replace(dt, EndOfDay) == DateTime(dt.day, MicrosPerDay - 1)
  {
    assert ToTime(EndOfDay) == MicrosPerDay - 1 by {}
  }
}
