/** Session records and the statistics derived from the session list
    (the filter-then-sum getters of the app context). */
module Sessions {
  import opened Calendar

  /** One recorded focus session. `id` is the clock reading whose decimal text
      the app uses as the record's id; `duration` is in minutes and
      `timestamp` in epoch milliseconds. */
  datatype Session = Session(id: int, duration: int, timestamp: int)

  ghost predicate NonNegativeDurations(ss: seq<Session>)
  {
    forall i :: 0 <= i < |ss| ==> ss[i].duration >= 0
  }

  /** Every record lasts at least one minute, as both recording paths guarantee. */
  ghost predicate PositiveDurations(ss: seq<Session>)
  {
    forall i :: 0 <= i < |ss| ==> ss[i].duration >= 1
  }

  /** No two records share an id. */
  ghost predicate IdsUnique(ss: seq<Session>)
  {
    forall i, j :: 0 <= i < j < |ss| ==> ss[i].id != ss[j].id
  }

  /** The sum of all durations (`getTotalMinutes`). */
  function TotalMinutes(ss: seq<Session>): int
  {
    if ss == [] then 0 else ss[0].duration + TotalMinutes(ss[1..])
  }

  /** The sessions recorded at or after `threshold`, in their original order. */
  function Since(ss: seq<Session>, threshold: int): seq<Session>
  {
    if ss == [] then []
    else if ss[0].timestamp >= threshold then [ss[0]] + Since(ss[1..], threshold)
    else Since(ss[1..], threshold)
  }

  /** Filter-then-sum: the total duration of sessions with `timestamp >= threshold`. */
  function SumSince(ss: seq<Session>, threshold: int): int
  {
    TotalMinutes(Since(ss, threshold))
  }

  /** `getTodayMinutes`: sessions since today's local midnight. */
  function TodayMinutes(ss: seq<Session>, today: int, tzOffsetMs: int): int
  {
    SumSince(ss, Midnight(today, tzOffsetMs))
  }

  /** `getWeeklyMinutes`: sessions since the local midnight seven days before today. */
  function WeeklyMinutes(ss: seq<Session>, today: int, tzOffsetMs: int): int
  {
    SumSince(ss, Midnight(today - 7, tzOffsetMs))
  }

  /** `getMonthlyMinutes`: sessions since the local midnight of the same date one
      calendar month back; `monthAgoDay` is the day number the calendar gives for it. */
  function MonthlyMinutes(ss: seq<Session>, monthAgoDay: int, tzOffsetMs: int): int
  {
    SumSince(ss, Midnight(monthAgoDay, tzOffsetMs))
  }

  /** The distinct local days that hold at least one session, collected in list order. */
  function DaySet(ss: seq<Session>, tzOffsetMs: int): (r: set<int>)
    ensures forall i :: 0 <= i < |ss| ==> DayOf(ss[i].timestamp, tzOffsetMs) in r
  {
    if ss == [] then {}
    else
      var init := ss[..|ss| - 1];
      assert forall i :: 0 <= i < |ss| - 1 ==> ss[i] == init[i];
      DaySet(init, tzOffsetMs) + {DayOf(ss[|ss| - 1].timestamp, tzOffsetMs)}
  }

  /** Every collected day is the day of some session. */
  lemma {:induction false} DaySetHoldsOnlySessionDays(ss: seq<Session>, tzOffsetMs: int, d: int)
    requires d in DaySet(ss, tzOffsetMs)
    ensures exists i :: 0 <= i < |ss| && DayOf(ss[i].timestamp, tzOffsetMs) == d
  {
    var init := ss[..|ss| - 1];
    if d in DaySet(init, tzOffsetMs) {
      DaySetHoldsOnlySessionDays(init, tzOffsetMs, d);
      var i :| 0 <= i < |init| && DayOf(init[i].timestamp, tzOffsetMs) == d;
      assert ss[i] == init[i];
    } else {
      assert DayOf(ss[|ss| - 1].timestamp, tzOffsetMs) == d;
    }
  }

  /** `getAverageDailyMinutes`: the total divided by the number of distinct active days,
      0 for an empty list. */
  function AverageDailyMinutes(ss: seq<Session>, tzOffsetMs: int): real
  {
    if |ss| == 0 then 0.0
    else
      var uniqueDays := |DaySet(ss, tzOffsetMs)|;
      if uniqueDays > 0 then TotalMinutes(ss) as real / uniqueDays as real else 0.0
  }

  // ---------------------------------------------------------------------------
  // Properties of the getters

  /** Peeling the newest record off a filter-then-sum. */
  lemma SumSinceCons(ss: seq<Session>, threshold: int)
    requires ss != []
    ensures SumSince(ss, threshold) ==
      (if ss[0].timestamp >= threshold then ss[0].duration else 0) + SumSince(ss[1..], threshold)
  {
    if ss[0].timestamp >= threshold {
      TotalOfCons(ss[0], Since(ss[1..], threshold));
    }
  }

  /** A later threshold never selects more minutes. */
  lemma {:induction false} SumSinceAntitone(ss: seq<Session>, t1: int, t2: int)
    requires NonNegativeDurations(ss)
    requires t1 <= t2
    ensures SumSince(ss, t2) <= SumSince(ss, t1)
  {
    if ss != [] {
      SumSinceAntitone(ss[1..], t1, t2);
      SumSinceCons(ss, t1);
      SumSinceCons(ss, t2);
    }
  }

  /** A windowed sum never exceeds the total. */
  lemma {:induction false} SumSinceAtMostTotal(ss: seq<Session>, threshold: int)
    requires NonNegativeDurations(ss)
    ensures 0 <= SumSince(ss, threshold) <= TotalMinutes(ss)
  {
    if ss != [] {
      SumSinceAtMostTotal(ss[1..], threshold);
      SumSinceCons(ss, threshold);
    }
  }

  lemma TotalOfCons(s: Session, ss: seq<Session>)
    ensures TotalMinutes([s] + ss) == s.duration + TotalMinutes(ss)
  {
    assert ([s] + ss)[1..] == ss;
  }

  /** The windows nest: today's midnight is no earlier than the midnight seven days
      back, which is no earlier than the same date a calendar month back (28 to 31
      days), so with non-negative durations today <= weekly <= monthly <= total. */
  lemma WindowsOrdered(ss: seq<Session>, today: int, monthAgoDay: int, tzOffsetMs: int)
    requires NonNegativeDurations(ss)
    requires today - 31 <= monthAgoDay <= today - 28
    ensures 0 <= TodayMinutes(ss, today, tzOffsetMs)
    ensures TodayMinutes(ss, today, tzOffsetMs) <= WeeklyMinutes(ss, today, tzOffsetMs)
    ensures WeeklyMinutes(ss, today, tzOffsetMs) <= MonthlyMinutes(ss, monthAgoDay, tzOffsetMs)
    ensures MonthlyMinutes(ss, monthAgoDay, tzOffsetMs) <= TotalMinutes(ss)
  {
    var tToday, tWeek, tMonth := Midnight(today, tzOffsetMs), Midnight(today - 7, tzOffsetMs), Midnight(monthAgoDay, tzOffsetMs);
    assert tWeek <= tToday by {
      assert (today - 7) * DayMs <= today * DayMs;
    }
    assert tMonth <= tWeek by {
      assert monthAgoDay * DayMs <= (today - 7) * DayMs;
    }
    SumSinceAntitone(ss, tWeek, tToday);
    SumSinceAntitone(ss, tMonth, tWeek);
    SumSinceAtMostTotal(ss, tMonth);
    SumSinceAtMostTotal(ss, tToday);
  }

  /** The sum of durations of sessions whose local day is `day` or later. */
  function SumFromDay(ss: seq<Session>, day: int, tzOffsetMs: int): int
  {
    if ss == [] then 0
    else (if DayOf(ss[0].timestamp, tzOffsetMs) >= day then ss[0].duration else 0)
         + SumFromDay(ss[1..], day, tzOffsetMs)
  }

  /** Filtering on `timestamp >= midnight of day` is filtering on day buckets: today's
      minutes are exactly the minutes of the sessions whose local day is today or later. */
  lemma {:induction false} SumSinceMidnightByDay(ss: seq<Session>, day: int, tzOffsetMs: int)
    ensures SumSince(ss, Midnight(day, tzOffsetMs)) == SumFromDay(ss, day, tzOffsetMs)
  {
    if ss != [] {
      var t := Midnight(day, tzOffsetMs);
      SinceMidnightIsDayFilter(day, ss[0].timestamp, tzOffsetMs);
      SumSinceMidnightByDay(ss[1..], day, tzOffsetMs);
      SumSinceCons(ss, t);
    }
  }

  /** Prepending a session stamped on day `today` adds its duration to every window
      that reaches back to today or further. */
  lemma RecordedTodayCounts(ss: seq<Session>, s: Session, today: int, monthAgoDay: int, tzOffsetMs: int)
    requires DayOf(s.timestamp, tzOffsetMs) == today
    requires monthAgoDay <= today
    ensures TodayMinutes([s] + ss, today, tzOffsetMs) == TodayMinutes(ss, today, tzOffsetMs) + s.duration
    ensures WeeklyMinutes([s] + ss, today, tzOffsetMs) == WeeklyMinutes(ss, today, tzOffsetMs) + s.duration
    ensures MonthlyMinutes([s] + ss, monthAgoDay, tzOffsetMs) == MonthlyMinutes(ss, monthAgoDay, tzOffsetMs) + s.duration
    ensures TotalMinutes([s] + ss) == TotalMinutes(ss) + s.duration
  {
    SinceMidnightIsDayFilter(today, s.timestamp, tzOffsetMs);
    SinceMidnightIsDayFilter(today - 7, s.timestamp, tzOffsetMs);
    SinceMidnightIsDayFilter(monthAgoDay, s.timestamp, tzOffsetMs);
    assert ([s] + ss)[1..] == ss;
    SumSinceCons([s] + ss, Midnight(today, tzOffsetMs));
    SumSinceCons([s] + ss, Midnight(today - 7, tzOffsetMs));
    SumSinceCons([s] + ss, Midnight(monthAgoDay, tzOffsetMs));
    TotalOfCons(s, ss);
  }

  /** Each session adds at most one new day. */
  lemma {:induction false} DaySetAtMostSessions(ss: seq<Session>, tzOffsetMs: int)
    ensures |DaySet(ss, tzOffsetMs)| <= |ss|
  {
    if ss != [] {
      DaySetAtMostSessions(ss[..|ss| - 1], tzOffsetMs);
    }
  }

  /** The average is 0 on an empty list; otherwise its divisor, the number of distinct
      active days, lies between 1 and the number of sessions (so the fallback to 0 for
      zero days is never taken) and the average is the total over that divisor. */
  lemma AverageDailyDivisor(ss: seq<Session>, tzOffsetMs: int)
    ensures |ss| == 0 ==> AverageDailyMinutes(ss, tzOffsetMs) == 0.0
    ensures |ss| > 0 ==> 1 <= |DaySet(ss, tzOffsetMs)| <= |ss|
    ensures |ss| > 0 ==>
      AverageDailyMinutes(ss, tzOffsetMs) == TotalMinutes(ss) as real / |DaySet(ss, tzOffsetMs)| as real
  {
    if |ss| > 0 {
      DaySetAtMostSessions(ss, tzOffsetMs);
      var days := DaySet(ss, tzOffsetMs);
      assert DayOf(ss[0].timestamp, tzOffsetMs) in days;
    }
  }

  /** With a strictly increasing clock (every stored id is an earlier reading than
      `now`), a record whose id is `now` keeps the ids unique. */
  lemma FreshIdKeepsIdsUnique(ss: seq<Session>, now: int, duration: int)
    requires IdsUnique(ss)
    requires forall i :: 0 <= i < |ss| ==> ss[i].id < now
    ensures IdsUnique([Session(now, duration, now)] + ss)
  {
    var r := [Session(now, duration, now)] + ss;
    forall i, j | 0 <= i < j < |r| ensures r[i].id != r[j].id {
      assert r[j] == ss[j - 1];
      if i > 0 {
        assert r[i] == ss[i - 1];
      }
    }
  }
}
