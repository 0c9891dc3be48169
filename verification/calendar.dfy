/**
 * Calendar dates as integer day numbers (days since an arbitrary epoch, UTC).
 * A date string parsed by `new Date("YYYY-MM-DD")` denotes the UTC midnight
 * of its day; `new Date()` denotes an instant somewhere inside a day.
 */
module Calendar {
  /** Milliseconds in one day: 1000 * 60 * 60 * 24. */
  const MsPerDay: int := 1000 * 60 * 60 * 24

  type MsOfDay = m: int | 0 <= m < MsPerDay

  /** A point in time: the day it falls on and the milliseconds since that day's midnight. */
  datatype Instant = Instant(day: int, ms: MsOfDay)

  /** `Date.getTime()` of an instant, counted from the epoch's midnight. */
  function Millis(t: Instant): int
  {
    t.day * MsPerDay + t.ms
  }

  /** The instant a date string without a time component denotes. */
  function Midnight(d: int): (t: Instant)
    ensures t.day == d && t.ms == 0
  {
    Instant(d, 0)
  }

  /** `Math.floor((t.getTime() - start.getTime()) / MsPerDay)` for a start at midnight. */
  function WholeDaysSince(t: Instant, start: int): (n: int)
    ensures n == t.day - start
  {
    var diff := Millis(t) - Millis(Midnight(start));
    assert diff == (t.day - start) * MsPerDay + t.ms;
    DivByDay(t.day - start, t.ms);
    diff / MsPerDay
  }

  /** Euclidean division by the day length recovers the day count. */
  lemma DivByDay(q: int, r: int)
    requires 0 <= r < MsPerDay
    ensures (q * MsPerDay + r) / MsPerDay == q
  {
    var x := q * MsPerDay + r;
    assert x == (x / MsPerDay) * MsPerDay + x % MsPerDay;
  }

  /** Comparing a midnight with an instant by `getTime` compares the days, except on the instant's own day. */
  lemma CompareWithInstant(d: int, t: Instant)
    ensures Millis(Midnight(d)) <= Millis(t) <==> d <= t.day
    ensures Millis(Midnight(d)) < Millis(t) <==> d < t.day || (d == t.day && t.ms > 0)
  {
    if d <= t.day - 1 {
      assert d * MsPerDay <= (t.day - 1) * MsPerDay;
    } else if d >= t.day + 1 {
      assert d * MsPerDay >= (t.day + 1) * MsPerDay;
    }
  }

  /** Comparing two midnights by `getTime` compares their days. */
  lemma CompareMidnights(a: int, b: int)
    ensures Millis(Midnight(a)) < Millis(Midnight(b)) <==> a < b
    ensures Millis(Midnight(a)) <= Millis(Midnight(b)) <==> a <= b
  {
    CompareWithInstant(a, Midnight(b));
  }
}
