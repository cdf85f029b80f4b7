/** Civil-clock arithmetic on instants counted in seconds from 1970-01-01T00:00:00Z.
    A datetime with another offset is represented by the seconds its own wall clock shows. */
module Clock {

  const HOUR := 3600
  const DAY := 86400

  /** datetime.hour, and EXTRACT(HOUR ...): 0 .. 23. */
  function HourOf(t: int): (h: int)
    ensures 0 <= h < 24
  {
    (t / HOUR) % 24
  }

  /** datetime.weekday(): Monday is 0; 1970-01-01 was a Thursday. */
  function WeekdayOf(t: int): (d: int)
    ensures 0 <= d < 7
  {
    (t / DAY + 3) % 7
  }

  /** A clock showing h hours on any day reads h; the weekday is that of the day, goes up by one from
      day to day and around after Sunday, and is Thursday on day 0. */
  lemma ClockReads(day: int, h: int, seconds: int)
    requires 0 <= h < 24 && 0 <= seconds < HOUR
    ensures var t := day * 86400 + h * 3600 + seconds;
            && HourOf(t) == h
            && WeekdayOf(t) == WeekdayOf(day * 86400)
            && WeekdayOf(t + 86400) == (if WeekdayOf(t) == 6 then 0 else WeekdayOf(t) + 1)
    ensures WeekdayOf(0) == 3
  {
    var t := day * 86400 + h * 3600 + seconds;
    assert t / 3600 == 24 * day + h;
    assert t / 86400 == day && (t + 86400) / 86400 == day + 1 && day * 86400 / 86400 == day;
  }
}
