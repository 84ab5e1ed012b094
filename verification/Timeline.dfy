/**
 Naive UTC datetimes as whole microseconds since midnight of 1 January of year 1, so that
 hours, days and midnights are plain multiples.
 */
module Timeline {

  type Instant = int

  type Duration = int

  const SECOND: Duration := 1_000_000
  const MINUTE: Duration := 60 * SECOND
  const HOUR: Duration := 60 * MINUTE
  const DAY: Duration := 24 * HOUR

  function FloorSecond(t: Instant): Instant {
    t - t % SECOND
  }

  function FloorMinute(t: Instant): Instant {
    t - t % MINUTE
  }

  function FloorHour(t: Instant): Instant {
    t - t % HOUR
  }

  /** The midnight that ends the calendar day of `t`. */
  function NextMidnight(t: Instant): Instant {
    (t / DAY + 1) * DAY
  }

  predicate WholeSecond(t: Instant) {
    t % SECOND == 0
  }

  function Min(a: int, b: int): int {
    if a <= b then a else b
  }

  lemma FloorSecondBounds(t: Instant)
    ensures FloorSecond(t) <= t < FloorSecond(t) + SECOND
    ensures WholeSecond(FloorSecond(t))
    ensures FloorSecond(t) == t <==> WholeSecond(t)
  {
  }

  lemma FloorSecondMonotone(a: Instant, b: Instant)
    requires a <= b
    ensures FloorSecond(a) <= FloorSecond(b)
  {
  }

  /** A full hour is a whole second. */
  lemma HoursAreWholeSeconds(t: Instant)
    requires t % HOUR == 0
    ensures WholeSecond(t)
  {
    assert t == (t / HOUR) * HOUR;
    assert t == (t / HOUR) * 3600 * SECOND;
  }

  lemma HourOfSecond(t: Instant)
    ensures FloorHour(FloorSecond(t)) == FloorHour(t)
  {
    var h, c := t / HOUR, t / SECOND;
    assert t == h * HOUR + t % HOUR;
    assert FloorSecond(t) == c * SECOND;
    assert h * HOUR == (3600 * h) * SECOND;
    assert 3600 * h <= c < 3600 * h + 3600;
  }

  /** Truncating first to the minute and then to the hour is truncating to the hour. */
  lemma HourOfMinute(t: Instant)
    ensures FloorHour(FloorMinute(t)) == FloorHour(t)
  {
    var h := t / HOUR;
    var m := t / MINUTE;
    assert t == h * HOUR + t % HOUR;
    assert FloorMinute(t) == m * MINUTE;
    assert h * HOUR == (60 * h) * MINUTE;
    assert 60 * h <= m < 60 * h + 60;
  }
}
