/** The app context: the in-memory session history, the user's settings, the
    streak counters and the premium flag, with the operations that replace them. */
module AppStore {
  import opened Calendar
  import opened Sessions
  import opened Streaks

  /** The values the context starts from before anything is loaded. */
  const InitialDefaultDuration: int := 20
  const InitialDailyGoal: int := 60

  /** The current streak `calculateStreaks` derives from a session list. */
  ghost function CurrentStreakOf(ss: seq<Session>, tz: int, today: int): nat
  {
    CurrentStreak(Descending(DaySet(ss, tz)), today)
  }

  /** The best streak after `calculateStreaks` over `ss`: the previous best, raised
      to the longest run of active days when that run is longer. An empty list
      leaves it alone. */
  ghost function RaisedBest(ss: seq<Session>, tz: int, prevBest: nat): (r: nat)
    ensures r >= prevBest
  {
    if ss == [] then prevBest
    else
      var days := Descending(DaySet(ss, tz));
      assert DayOf(ss[0].timestamp, tz) in DaySet(ss, tz);
      if LongestRun(days) > prevBest then LongestRun(days) else prevBest
  }

  class FocusStore {
    /** The local time zone of the device, as an offset from UTC in milliseconds. */
    const tzOffsetMs: int
    /** Newest first. */
    var sessions: seq<Session>
    /** Minutes. */
    var defaultDuration: int
    /** Minutes. */
    var dailyGoal: int
    var currentStreak: nat
    var bestStreak: nat
    var isPremium: bool

    ghost predicate Valid()
      reads this
    {
      && defaultDuration >= 1
      && dailyGoal >= 1
      && currentStreak <= bestStreak
      && PositiveDurations(sessions)
    }

    constructor(tzOffsetMs: int)
      ensures Valid()
      ensures this.tzOffsetMs == tzOffsetMs
      ensures sessions == []
      ensures defaultDuration == InitialDefaultDuration && dailyGoal == InitialDailyGoal
      ensures currentStreak == 0 && bestStreak == 0 && !isPremium
    {
      this.tzOffsetMs := tzOffsetMs;
      sessions := [];
      defaultDuration := InitialDefaultDuration;
      dailyGoal := InitialDailyGoal;
      currentStreak := 0;
      bestStreak := 0;
      isPremium := false;
    }

    /** `calculateStreaks`, run whenever the session list changes: an empty list
        zeroes the current streak and leaves the best streak alone; otherwise the
        current streak is recomputed and the best streak is raised to the longest
        run when that run is longer. */
    method CalculateStreaks(today: int)
      requires Valid()
      modifies this
      ensures Valid()
      ensures sessions == old(sessions) && defaultDuration == old(defaultDuration)
      ensures dailyGoal == old(dailyGoal) && isPremium == old(isPremium)
      ensures sessions == [] ==> currentStreak == 0
      ensures sessions != [] ==> currentStreak == CurrentStreakOf(sessions, tzOffsetMs, today)
      ensures bestStreak == RaisedBest(sessions, tzOffsetMs, old(bestStreak))
    {
      if |sessions| == 0 {
        currentStreak := 0;
        return;
      }
      var days := CollectDays(sessions, tzOffsetMs);
      assert DayOf(sessions[0].timestamp, tzOffsetMs) in days;
      var sortedDays := SortDescending(days);
      var current, maxStreak := StreakRuns(sortedDays, today);
      BestCoversCurrent(sortedDays, today);
      currentStreak := current;
      if maxStreak > bestStreak {
        bestStreak := maxStreak;
      }
    }

    /** `addSession`: prepends one record stamped with the clock reading `nowMs`
        (also its id); the streaks are then recomputed for the day of `nowMs`. Both
        callers record at least one minute. */
    method AddSession(duration: int, nowMs: int)
      requires Valid() && duration >= 1
      modifies this
      ensures Valid()
      ensures sessions == [Session(nowMs, duration, nowMs)] + old(sessions)
      ensures defaultDuration == old(defaultDuration) && dailyGoal == old(dailyGoal)
      ensures isPremium == old(isPremium)
      ensures currentStreak == CurrentStreakOf(sessions, tzOffsetMs, DayOf(nowMs, tzOffsetMs))
      ensures bestStreak == RaisedBest(sessions, tzOffsetMs, old(bestStreak))
    {
      sessions := [Session(nowMs, duration, nowMs)] + sessions;
      CalculateStreaks(DayOf(nowMs, tzOffsetMs));
    }

    /** `resetHistory`: empties the list; the streak recomputation then zeroes the
        current streak and leaves the best streak as it was. */
    method ResetHistory()
      requires Valid()
      modifies this
      ensures Valid()
      ensures sessions == []
      ensures currentStreak == 0 && bestStreak == old(bestStreak)
      ensures defaultDuration == old(defaultDuration) && dailyGoal == old(dailyGoal)
      ensures isPremium == old(isPremium)
    {
      sessions := [];
      currentStreak := 0;
    }

    /** `updateDefaultDuration`; every caller passes a value already checked to be positive. */
    method UpdateDefaultDuration(duration: int)
      requires Valid() && duration >= 1
      modifies this
      ensures Valid()
      ensures defaultDuration == duration
      ensures sessions == old(sessions) && dailyGoal == old(dailyGoal)
      ensures currentStreak == old(currentStreak) && bestStreak == old(bestStreak)
      ensures isPremium == old(isPremium)
    {
      defaultDuration := duration;
    }

    /** `updateDailyGoal`; every caller passes a value already checked to be positive. */
    method UpdateDailyGoal(goal: int)
      requires Valid() && goal >= 1
      modifies this
      ensures Valid()
      ensures dailyGoal == goal
      ensures sessions == old(sessions) && defaultDuration == old(defaultDuration)
      ensures currentStreak == old(currentStreak) && bestStreak == old(bestStreak)
      ensures isPremium == old(isPremium)
    {
      dailyGoal := goal;
    }

    /** `togglePremium`: flips the premium flag. */
    method TogglePremium()
      requires Valid()
      modifies this
      ensures Valid()
      ensures isPremium == !old(isPremium)
      ensures sessions == old(sessions) && defaultDuration == old(defaultDuration)
      ensures dailyGoal == old(dailyGoal)
      ensures currentStreak == old(currentStreak) && bestStreak == old(bestStreak)
    {
      isPremium := !isPremium;
    }
  }
}
