/**
 * Calendar days over millisecond timestamps.
 *
 * A timestamp is an integer number of milliseconds since 1970-01-01T00:00:00Z.
 * A day number counts calendar days from 1970-01-01 (day 0). The UTC day is the
 * date part of `Date.toISOString()`; the local day is the date that
 * `Date.toDateString()` and `Date.setHours` work with, for a server whose zone is
 * `offset` milliseconds ahead of UTC (a fixed offset: no daylight-saving change).
 * Dafny's `/` on `int` rounds down for a positive divisor, as calendar days do.
 */
module Calendar {

  /** Milliseconds in one day. */
  const DayMs: int := 86400000

  /** The UTC calendar day of timestamp `t`. */
  function UtcDay(t: int): int {
    t / DayMs
  }

  /** The local calendar day of timestamp `t`. */
  function LocalDay(t: int, offset: int): int {
    (t + offset) / DayMs
  }

  /** Local midnight (00:00:00.000) at the start of local day `d`: it lies on day `d`
      and the millisecond before it lies on the day before. */
  function LocalMidnight(d: int, offset: int): (t: int)
    ensures LocalDay(t, offset) == d
    ensures LocalDay(t - 1, offset) == d - 1
  {
    d * DayMs - offset
  }

  /** A timestamp is at or after the midnight that starts day `d` exactly when it lies on day `d` or later. */
  lemma AtOrAfterMidnight(d: int, t: int, offset: int)
    ensures LocalMidnight(d, offset) <= t <==> d <= LocalDay(t, offset)
  {
    var x := t + offset;
    var q := x / DayMs;
    assert q * DayMs <= x < q * DayMs + DayMs;
    if d <= q {
      assert d * DayMs <= q * DayMs;
    } else {
      assert (q + 1) * DayMs <= d * DayMs;
    }
  }

  /** Later timestamps never fall on an earlier UTC day. */
  lemma UtcDayMonotonic(a: int, b: int)
    requires a <= b
    ensures UtcDay(a) <= UtcDay(b)
  {
    var qa, qb := a / DayMs, b / DayMs;
    assert qa * DayMs <= a && b < qb * DayMs + DayMs;
  }
}
