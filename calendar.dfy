/** Naive local timestamps as Python's `datetime` sees them.

    A day is numbered from 0001-01-01 (Python's `date.toordinal() - 1`), which
    is a Monday, so `Weekday` agrees with `date.weekday()` (Monday = 0 …
    Sunday = 6). An instant counts minutes from 0001-01-01 00:00; seconds are
    always zero in the bookings this system builds. */
module Calendar {

  type Day = int
  type Instant = int

  const MinutesPerHour: int := 60
  const MinutesPerDay: int := 1440

  /** `t.date()` */
  function DayOf(t: Instant): (d: Day)
  {
    t / MinutesPerDay
  }

  /** `t.hour` */
  function HourOf(t: Instant): (h: int)
    ensures 0 <= h < 24
  {
    (t % MinutesPerDay) / MinutesPerHour
  }

  /** `t.minute` */
  function MinuteOf(t: Instant): (m: int)
    ensures 0 <= m < 60
  {
    t % MinutesPerHour
  }

  /** `d.weekday()`: Monday = 0, …, Saturday = 5, Sunday = 6 */
  function Weekday(d: Day): (w: int)
    ensures 0 <= w < 7
  {
    d % 7
  }

  predicate IsWeekend(d: Day)
  {
    Weekday(d) >= 5
  }

  /** `datetime.combine(d, time(hour, minute))` */
  function At(d: Day, hour: int, minute: int): (t: Instant)
  {
    d * MinutesPerDay + hour * MinutesPerHour + minute
  }

  /** `t + timedelta(hours=n)` */
  function AddHours(t: Instant, n: int): (r: Instant)
  {
    t + n * MinutesPerHour
  }

  /** A time of day built with `At` reads back as the same date, hour and minute. */
  lemma AtParts(d: Day, hour: int, minute: int)
    requires 0 <= hour < 24 && 0 <= minute < 60
    ensures DayOf(At(d, hour, minute)) == d
    ensures HourOf(At(d, hour, minute)) == hour
    ensures MinuteOf(At(d, hour, minute)) == minute
  {
    var t := At(d, hour, minute);
    var tod := hour * MinutesPerHour + minute;
    assert 0 <= tod < MinutesPerDay;
    assert t == d * MinutesPerDay + tod;
    assert t % MinutesPerDay == tod && t / MinutesPerDay == d;
    assert tod == hour * MinutesPerHour + minute;
    assert tod / MinutesPerHour == hour;
    assert t == (d * 24 + hour) * MinutesPerHour + minute;
    assert t % MinutesPerHour == minute;
  }

  /** Adding whole hours within one day moves only the hour. */
  lemma AddHoursSameDay(d: Day, hour: int, n: int)
    requires 0 <= hour < 24 && 0 <= hour + n < 24
    ensures AddHours(At(d, hour, 0), n) == At(d, hour + n, 0)
  {
  }

  /** Time of day in minutes. */
  function MinuteOfDay(t: Instant): (m: int)
    ensures 0 <= m < MinutesPerDay
  {
    t % MinutesPerDay
  }

  /** The clock reading decomposes the time of day. */
  lemma ClockParts(t: Instant)
    ensures MinuteOfDay(t) == HourOf(t) * MinutesPerHour + MinuteOf(t)
    ensures t == DayOf(t) * MinutesPerDay + MinuteOfDay(t)
  {
    var tod := t % MinutesPerDay;
    assert t == (t / MinutesPerDay) * MinutesPerDay + tod;
    assert tod == (tod / MinutesPerHour) * MinutesPerHour + tod % MinutesPerHour;
    assert t == ((t / MinutesPerDay) * 24 + tod / MinutesPerHour) * MinutesPerHour + tod % MinutesPerHour;
    assert t % MinutesPerHour == tod % MinutesPerHour;
  }
}
