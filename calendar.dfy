/** Local calendar days as integer day numbers.

    The app buckets a timestamp into a day by taking its local midnight
    (`setHours(0, 0, 0, 0)`). Here the local time zone is a fixed offset
    from UTC in milliseconds, so a day is exactly 86 400 000 ms long and
    the bucket of a timestamp is a floor division. */
module Calendar {

  const DayMs: int := 86400000

  /** The local day number that contains the epoch-millisecond instant `ts`. */
  function DayOf(ts: int, tzOffsetMs: int): int
  {
    (ts + tzOffsetMs) / DayMs
  }

  /** The epoch-millisecond instant of local midnight that starts day `day`. */
  function Midnight(day: int, tzOffsetMs: int): int
  {
    day * DayMs - tzOffsetMs
  }

  /** A day starts at its own midnight: bucketing the midnight of `day` gives `day` back,
      and every instant of that day lies between its midnight and the next one. */
  lemma MidnightStartsDay(day: int, ts: int, tzOffsetMs: int)
    ensures DayOf(Midnight(day, tzOffsetMs), tzOffsetMs) == day
    ensures DayOf(ts, tzOffsetMs) == day <==>
              Midnight(day, tzOffsetMs) <= ts < Midnight(day + 1, tzOffsetMs)
  {
    var x := ts + tzOffsetMs;
    assert Midnight(day, tzOffsetMs) + tzOffsetMs == day * DayMs;
    assert (day * DayMs) / DayMs == day;
    assert x == DayMs * (x / DayMs) + x % DayMs && 0 <= x % DayMs < DayMs;
    if x / DayMs == day {
      assert day * DayMs <= x < (day + 1) * DayMs;
    }
    if day * DayMs <= x < (day + 1) * DayMs {
      DivUnique(x, day);
    }
  }

  /** A threshold at a local midnight selects exactly the instants of that day or later:
      the filter `timestamp >= midnight` is a filter on day buckets. */
  lemma SinceMidnightIsDayFilter(day: int, ts: int, tzOffsetMs: int)
    ensures ts >= Midnight(day, tzOffsetMs) <==> DayOf(ts, tzOffsetMs) >= day
  {
    var x := ts + tzOffsetMs;
    var q := x / DayMs;
    assert x == DayMs * q + x % DayMs && 0 <= x % DayMs < DayMs;
    if q >= day {
      assert q * DayMs >= day * DayMs;
    } else {
      assert q + 1 <= day;
      assert (q + 1) * DayMs <= day * DayMs;
    }
  }

  lemma DivUnique(x: int, q: int)
    requires q * DayMs <= x < (q + 1) * DayMs
    ensures x / DayMs == q
  {
    var r := x / DayMs;
    assert x == DayMs * r + x % DayMs && 0 <= x % DayMs < DayMs;
  }
}
