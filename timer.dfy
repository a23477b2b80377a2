/** The focus timer of the home screen: a countdown in whole seconds, started and
    stopped by one button, ticked once a second, compensated for the time the app
    spent in the background, and set by a horizontal drag gesture while stopped. */
module Timer {
  import opened Optional
  import opened Decimal
  import opened Calendar
  import opened Sessions
  import opened AppStore

  const MaxSlide: int := 450
  const FreeCap: int := 20
  const PremiumCap: int := 999

  // ---------------------------------------------------------------------------
  // Arithmetic of the gesture and the display

  /** `Math.max(lo, Math.min(hi, x))`. */
  function Clamp(x: int, lo: int, hi: int): (r: int)
    requires lo <= hi
    ensures lo <= r <= hi
    ensures lo <= x <= hi ==> r == x
    ensures x < lo ==> r == lo
    ensures x > hi ==> r == hi
  {
    if x > hi then hi else if x < lo then lo else x
  }

  /** The longest duration the gesture can reach: unlimited (999 minutes) for premium
      accounts, 20 minutes otherwise. */
  function DurationCap(isPremium: bool): (cap: int)
    ensures cap >= FreeCap
    ensures isPremium ==> cap == PremiumCap
    ensures !isPremium ==> cap == FreeCap
  {
    if isPremium then PremiumCap else FreeCap
  }

  /** `Math.round(dx * 0.15)` for a whole-pixel drag: the nearest integer to
      `3 * dx / 20`, halves rounded up. */
  function DeltaMinutes(dx: int): (r: int)
    ensures 20 * r - 10 <= 3 * dx < 20 * r + 10
  {
    (3 * dx + 10) / 20
  }

  /** The slider position for a persistent offset moved by a drag. */
  function SliderPosition(offset: int, dx: int): (r: int)
    ensures -MaxSlide <= r <= MaxSlide
  {
    Clamp(offset + dx, -MaxSlide, MaxSlide)
  }

  /** The duration a drag of `dx` pixels selects, starting from `baseline` minutes. */
  function GestureDuration(baseline: int, dx: int, isPremium: bool): (r: int)
    ensures 1 <= r <= DurationCap(isPremium)
  {
    Clamp(baseline + DeltaMinutes(dx), 1, DurationCap(isPremium))
  }

  /** Dragging further right never selects a shorter duration. */
  lemma GestureDurationMonotone(baseline: int, dx1: int, dx2: int, isPremium: bool)
    requires dx1 <= dx2
    ensures GestureDuration(baseline, dx1, isPremium) <= GestureDuration(baseline, dx2, isPremium)
  {
    var d1, d2 := DeltaMinutes(dx1), DeltaMinutes(dx2);
    assert 20 * d1 - 10 <= 3 * dx1 <= 3 * dx2 < 20 * d2 + 10;
  }

  /** A drag shorter than half a minute's worth keeps an in-range baseline. */
  lemma SmallDragKeepsBaseline(baseline: int, dx: int, isPremium: bool)
    requires -4 < dx < 4
    requires 1 <= baseline <= DurationCap(isPremium)
    ensures GestureDuration(baseline, dx, isPremium) == baseline
  {
  }

  /** `Math.round(n / 60)` for a non-negative number of seconds: the nearest whole
      number of minutes, halves rounded up. */
  function RoundMinutes(n: int): (r: int)
    ensures 60 * r - 30 <= n < 60 * r + 30
  {
    (n + 30) / 60
  }

  lemma RoundExactMinutes(n: int)
    requires n % 60 == 0
    ensures RoundMinutes(n) == n / 60
  {
    var q := n / 60;
    assert n == 60 * q;
    assert (n + 30) == 60 * q + 30;
  }

  /** `Math.floor(used / 60)`: the whole minutes contained in `used` seconds. */
  function WholeMinutes(used: int): (r: int)
    ensures 60 * r <= used < 60 * r + 60
  {
    used / 60
  }

  /** `formatTime`: minutes and seconds, each left-padded with zeros to two digits. */
  function FormatTime(seconds: nat): (r: string)
    ensures |r| >= 5 && r[|r| - 3] == ':'
  {
    ShortNumeral(seconds % 60);
    PadTwo(NatToString(seconds / 60)) + ":" + PadTwo(NatToString(seconds % 60))
  }

  /** Reads a clock face "M…M:SS", with a seconds field below 60, back into seconds. */
  function ReadClock(t: string): Option<nat>
  {
    if |t| >= 4 && t[|t| - 3] == ':' && AllDigits(t[..|t| - 3]) && AllDigits(t[|t| - 2..])
       && DigitsValue(t[|t| - 2..]) < 60
    then Some(DigitsValue(t[..|t| - 3]) * 60 + DigitsValue(t[|t| - 2..]))
    else None
  }

  /** The clock face shows exactly the remaining time: its minutes field is
      `floor(s / 60)`, its seconds field is `s % 60` in two digits, and reading it
      back gives `s`. */
  lemma FormatTimeReadsBack(s: nat)
    ensures |FormatTime(s)| == |PadTwo(NatToString(s / 60))| + 3
    ensures ReadClock(FormatTime(s)) == Some(s)
  {
    var m, c := s / 60, s % 60;
    assert m * 60 + c == s;
    ReadPaddedFace(m, c);
  }

  /** A face that reads back as `s` has `floor(s / 60)` in its minutes field and
      `s % 60` in its seconds field. */
  lemma ReadClockFields(t: string, s: nat)
    requires ReadClock(t) == Some(s)
    ensures |t| >= 4 && DigitsValue(t[..|t| - 3]) == s / 60 && DigitsValue(t[|t| - 2..]) == s % 60
  {
    var m, c := DigitsValue(t[..|t| - 3]), DigitsValue(t[|t| - 2..]);
    assert s == m * 60 + c && 0 <= c < 60;
    assert s == 60 * (s / 60) + s % 60 && 0 <= s % 60 < 60;
  }

  lemma ReadPaddedFace(m: nat, c: nat)
    requires c < 60
    ensures ReadClock(PadTwo(NatToString(m)) + ":" + PadTwo(NatToString(c))) == Some(m * 60 + c)
  {
    var mins, secs := PadTwo(NatToString(m)), PadTwo(NatToString(c));
    PaddedNumeral(m);
    PaddedNumeral(c);
    ShortNumeral(c);
    assert |secs| == 2;
    ReadFace(mins, secs, m, c);
  }

  lemma PaddedNumeral(n: nat)
    ensures |PadTwo(NatToString(n))| >= 2
    ensures AllDigits(PadTwo(NatToString(n))) && DigitsValue(PadTwo(NatToString(n))) == n
  {
    PadTwoKeepsValue(NatToString(n));
  }

  lemma ReadFace(mins: string, secs: string, m: nat, c: nat)
    requires |mins| >= 1 && AllDigits(mins) && AllDigits(secs) && |secs| == 2
    requires DigitsValue(mins) == m && DigitsValue(secs) == c && c < 60
    ensures ReadClock(mins + ":" + secs) == Some(m * 60 + c)
  {
    var t := mins + ":" + secs;
    assert t[..|t| - 3] == mins;
    assert t[|t| - 2..] == secs;
    assert t[|t| - 3] == ':';
  }

  lemma ShortNumeral(n: nat)
    requires n < 100
    ensures |NatToString(n)| <= 2
  {
    if n >= 10 {
      assert |NatToString(n / 10)| == 1;
    }
  }

  // ---------------------------------------------------------------------------
  // Background compensation

  /** The whole seconds in `elapsedMs` (`Math.floor(ms / 1000)`). */
  function ElapsedSeconds(elapsedMs: int): (r: int)
    ensures 1000 * r <= elapsedMs < 1000 * r + 1000
  {
    elapsedMs / 1000
  }

  /** The foreground update as written: the elapsed whole seconds are subtracted and
      the result is floored at 0, but nothing bounds it from above. */
  function CompensateAsWritten(prev: int, elapsedMs: int): (r: int)
    ensures r >= 0
    ensures prev >= 0 && elapsedMs >= 0 ==> r <= prev
  {
    var newTime := prev - ElapsedSeconds(elapsedMs);
    if newTime > 0 then newTime else 0
  }

  /** When the wall clock is set back while the app is in the background, the
      elapsed time is negative and the countdown gains time: 5 seconds here. */
  lemma CompensateAsWrittenGainsTime()
    ensures CompensateAsWritten(10, -5000) == 15
  {
  }

  /** The foreground update with the elapsed time taken as at least 0: the remaining
      time never grows, and agrees with the code as written whenever the clock ran forward. */
  function Compensate(prev: nat, elapsedMs: int): (r: nat)
    ensures r <= prev
    ensures elapsedMs >= 0 ==> r == CompensateAsWritten(prev, elapsedMs)
    ensures elapsedMs < 1000 ==> r == prev
  {
    var secs := if elapsedMs > 0 then ElapsedSeconds(elapsedMs) else 0;
    if prev - secs > 0 then prev - secs else 0
  }

  /** Two background stays of whole seconds cost the same as one stay of their total. */
  lemma CompensateTwice(prev: nat, a: nat, b: nat)
    ensures Compensate(Compensate(prev, 1000 * a), 1000 * b) == Compensate(prev, 1000 * (a + b))
  {
    assert ElapsedSeconds(1000 * a) == a;
    assert ElapsedSeconds(1000 * b) == b;
    assert ElapsedSeconds(1000 * (a + b)) == a + b;
  }
  /** Each stay loses its sub-second remainder: two stays of 0.6 s cost nothing,
      one stay of 1.2 s costs a second. */
  lemma CompensateDropsRemainders()
    ensures Compensate(Compensate(10, 600), 600) == 10
    ensures Compensate(10, 1200) == 9
  {
  }


  // ---------------------------------------------------------------------------
  // Application state

  /** The states React Native reports for the app. */
  datatype AppStatus = Active | Inactive | Background | Unknown

  /** `status.match(/active/)`: true for "active" and for "inactive", which contains it. */
  predicate MatchesActive(s: AppStatus)
  {
    s == Active || s == Inactive
  }

  /** `status.match(/background/)`. */
  predicate MatchesBackground(s: AppStatus)
  {
    s == Background
  }

  // ---------------------------------------------------------------------------
  // The timer

  /** What the user is told after a save: the remote store's confirmation after a
      completed session, after a confirmed stop, or the failure of the latter. */
  datatype Notice = Quiet | SessionSaved(minutes: int) | Recorded(minutes: int) | SaveFailed

  class FocusTimer {
    const store: FocusStore
    /** Seconds. */
    var timeLeft: int
    /** Seconds. */
    var totalTime: int
    var isRunning: bool
    /** Minutes selected by the gesture. */
    var duration: int
    /** The instant the app went to the background while running. */
    var backgroundedAt: Option<int>
    var appStatus: AppStatus
    /** The slider position kept between gestures. */
    var sliderOffset: int
    /** The duration at the start of the current gesture. */
    var baseline: int

    ghost predicate Valid()
      reads this, store
    {
      store.Valid() && CountdownValid()
    }

    /** The timer's own fields: the remaining time within a whole-minute total, a
        positive duration and the slider on its track. */
    ghost predicate CountdownValid()
      reads this
    {
      && 0 <= timeLeft <= totalTime
      && totalTime >= 60 && totalTime % 60 == 0
      && duration >= 1
      && -MaxSlide <= sliderOffset <= MaxSlide
    }

    /** The screen starts from the stored default duration, stopped. */
    constructor(store: FocusStore, status: AppStatus)
      requires store.Valid()
      ensures Valid()
      ensures this.store == store
      ensures timeLeft == totalTime == store.defaultDuration * 60
      ensures !isRunning && duration == store.defaultDuration && baseline == store.defaultDuration
      ensures backgroundedAt == None && appStatus == status && sliderOffset == 0
    {
      this.store := store;
      timeLeft := store.defaultDuration * 60;
      totalTime := store.defaultDuration * 60;
      isRunning := false;
      duration := store.defaultDuration;
      backgroundedAt := None;
      appStatus := status;
      sliderOffset := 0;
      baseline := store.defaultDuration;
    }

    /** `handleStart`: the button shows START only while stopped. */
    method Start()
      requires Valid() && !isRunning
      modifies this
      ensures Valid() && isRunning
      ensures timeLeft == old(timeLeft) && totalTime == old(totalTime) && duration == old(duration)
      ensures backgroundedAt == old(backgroundedAt) && appStatus == old(appStatus)
      ensures sliderOffset == old(sliderOffset) && baseline == old(baseline)
    {
      isRunning := true;
    }

    /** The one-second tick: counts down by one, and at 1 or less sets the time to 0
        and completes the session. `remoteSaved` is the remote store's answer. */
    method Tick(remoteSaved: bool, nowMs: int) returns (notice: Notice)
      requires Valid() && isRunning
      modifies this, store
      ensures Valid()
      ensures old(timeLeft) > 1 ==>
        && timeLeft == old(timeLeft) - 1 && isRunning && totalTime == old(totalTime)
        && store.sessions == old(store.sessions) && notice == Quiet
        && store.currentStreak == old(store.currentStreak) && store.bestStreak == old(store.bestStreak)
      ensures old(timeLeft) <= 1 ==>
        && !isRunning
        && store.sessions == [Session(nowMs, old(totalTime) / 60, nowMs)] + old(store.sessions)
        && notice == (if remoteSaved then SessionSaved(old(totalTime) / 60) else Quiet)
        && timeLeft == totalTime == store.defaultDuration * 60
        && store.currentStreak == CurrentStreakOf(store.sessions, store.tzOffsetMs, DayOf(nowMs, store.tzOffsetMs))
        && store.bestStreak == RaisedBest(store.sessions, store.tzOffsetMs, old(store.bestStreak))
      ensures store.defaultDuration == old(store.defaultDuration) && store.dailyGoal == old(store.dailyGoal)
      ensures store.isPremium == old(store.isPremium)
      ensures duration == old(duration) && baseline == old(baseline) && sliderOffset == old(sliderOffset)
      ensures backgroundedAt == old(backgroundedAt) && appStatus == old(appStatus)
    {
      if timeLeft <= 1 {
        timeLeft := 0;
        notice := Complete(remoteSaved, nowMs);
      } else {
        timeLeft := timeLeft - 1;
        notice := Quiet;
      }
    }

    /** `handleComplete`: stops, records the whole session (`round(totalTime / 60)`
        minutes, exact since the total is whole minutes) locally whatever the remote
        answer, and resets the countdown to the default duration. */
    method Complete(remoteSaved: bool, nowMs: int) returns (notice: Notice)
      requires Valid()
      modifies this, store
      ensures Valid() && !isRunning
      ensures store.sessions == [Session(nowMs, old(totalTime) / 60, nowMs)] + old(store.sessions)
      ensures store.currentStreak == CurrentStreakOf(store.sessions, store.tzOffsetMs, DayOf(nowMs, store.tzOffsetMs))
      ensures store.bestStreak == RaisedBest(store.sessions, store.tzOffsetMs, old(store.bestStreak))
      ensures notice == (if remoteSaved then SessionSaved(old(totalTime) / 60) else Quiet)
      ensures timeLeft == totalTime == store.defaultDuration * 60
      ensures store.defaultDuration == old(store.defaultDuration) && store.dailyGoal == old(store.dailyGoal)
      ensures store.isPremium == old(store.isPremium)
      ensures duration == old(duration) && baseline == old(baseline) && sliderOffset == old(sliderOffset)
      ensures backgroundedAt == old(backgroundedAt) && appStatus == old(appStatus)
    {
      isRunning := false;
      RoundExactMinutes(totalTime);
      var completedMinutes := RoundMinutes(totalTime);
      assert completedMinutes == totalTime / 60 >= 1;
      notice := if remoteSaved then SessionSaved(completedMinutes) else Quiet;
      var reset := store.defaultDuration * 60;
      assert reset % 60 == 0;
      timeLeft, totalTime := reset, reset;
      assert CountdownValid();
      store.AddSession(completedMinutes, nowMs);
    }

    /** `handleStop`: stops; when at least one whole minute was used the user is asked
        (the prompt names the minutes) and, on confirmation, that many minutes are
        recorded locally whatever the remote answer; the countdown is always reset
        to the default duration. */
    method Stop(confirmed: bool, remoteSaved: bool, nowMs: int) returns (prompt: Option<int>, notice: Notice)
      requires Valid() && isRunning
      modifies this, store
      ensures Valid() && !isRunning
      ensures var used := WholeMinutes(old(totalTime) - old(timeLeft));
        && (prompt == if used >= 1 then Some(used) else None)
        && (store.sessions == if used >= 1 && confirmed
                              then [Session(nowMs, used, nowMs)] + old(store.sessions)
                              else old(store.sessions))
        && (notice == if used >= 1 && confirmed then (if remoteSaved then Recorded(used) else SaveFailed)
                      else Quiet)
        && (used >= 1 && confirmed ==>
              && store.currentStreak == CurrentStreakOf(store.sessions, store.tzOffsetMs, DayOf(nowMs, store.tzOffsetMs))
              && store.bestStreak == RaisedBest(store.sessions, store.tzOffsetMs, old(store.bestStreak)))
        && (!(used >= 1 && confirmed) ==>
              store.currentStreak == old(store.currentStreak) && store.bestStreak == old(store.bestStreak))
      ensures timeLeft == totalTime == store.defaultDuration * 60
      ensures store.defaultDuration == old(store.defaultDuration) && store.dailyGoal == old(store.dailyGoal)
      ensures store.isPremium == old(store.isPremium)
      ensures duration == old(duration) && baseline == old(baseline) && sliderOffset == old(sliderOffset)
      ensures backgroundedAt == old(backgroundedAt) && appStatus == old(appStatus)
    {
      isRunning := false;
      var minutesUsed := WholeMinutes(totalTime - timeLeft);
      prompt, notice := None, Quiet;
      var reset := store.defaultDuration * 60;
      assert reset % 60 == 0;
      timeLeft, totalTime := reset, reset;
      if minutesUsed >= 1 {
        prompt := Some(minutesUsed);
        if confirmed {
          notice := if remoteSaved then Recorded(minutesUsed) else SaveFailed;
          store.AddSession(minutesUsed, nowMs);
        }
      }
    }

    /** The app-state listener. Leaving for the background from a state matching
        `/active/` records the instant if running; returning to "active" from the
        background, while running and with an instant recorded, subtracts the whole
        seconds spent away and clears the instant. The new state is always kept. */
    method AppStateChange(next: AppStatus, nowMs: int)
      requires Valid()
      modifies this
      ensures Valid()
      ensures appStatus == next
      ensures MatchesActive(old(appStatus)) && next == Background ==>
        && backgroundedAt == (if isRunning then Some(nowMs) else old(backgroundedAt))
        && timeLeft == old(timeLeft)
      ensures MatchesBackground(old(appStatus)) && next == Active ==>
        if isRunning && old(backgroundedAt).Some? && old(backgroundedAt).value != 0
        then timeLeft == Compensate(old(timeLeft), nowMs - old(backgroundedAt).value) && backgroundedAt == None
        else timeLeft == old(timeLeft) && backgroundedAt == old(backgroundedAt)
      ensures !(MatchesBackground(old(appStatus)) && next == Active) &&
              !(MatchesActive(old(appStatus)) && next == Background) ==>
        timeLeft == old(timeLeft) && backgroundedAt == old(backgroundedAt)
      ensures isRunning == old(isRunning) && totalTime == old(totalTime) && duration == old(duration)
      ensures sliderOffset == old(sliderOffset) && baseline == old(baseline)
    {
      if MatchesActive(appStatus) && next == Background {
        if isRunning {
          backgroundedAt := Some(nowMs);
        }
      } else if MatchesBackground(appStatus) && next == Active {
        if isRunning && backgroundedAt.Some? && backgroundedAt.value != 0 {
          timeLeft := Compensate(timeLeft, nowMs - backgroundedAt.value);
          backgroundedAt := None;
        }
      }
      appStatus := next;
    }

    /** Gesture grant: the duration shown becomes the baseline of the drag. The slider
        is only on screen while stopped. */
    method GestureGrant()
      requires Valid() && !isRunning
      modifies this
      ensures Valid()
      ensures baseline == duration
      ensures timeLeft == old(timeLeft) && totalTime == old(totalTime) && duration == old(duration)
      ensures isRunning == old(isRunning) && sliderOffset == old(sliderOffset)
      ensures backgroundedAt == old(backgroundedAt) && appStatus == old(appStatus)
    {
      baseline := duration;
    }

    /** Gesture move by `dx` pixels from the grant: returns the clamped slider position
        shown and selects the clamped duration; when that differs from the current
        one, both times become the new duration in seconds. */
    method GestureMove(dx: int) returns (position: int)
      requires Valid() && !isRunning
      modifies this
      ensures Valid()
      ensures position == SliderPosition(sliderOffset, dx)
      ensures duration == GestureDuration(baseline, dx, store.isPremium)
      ensures 1 <= duration <= DurationCap(store.isPremium)
      ensures duration != old(duration) ==> timeLeft == totalTime == duration * 60
      ensures duration == old(duration) ==> timeLeft == old(timeLeft) && totalTime == old(totalTime)
      ensures isRunning == old(isRunning) && sliderOffset == old(sliderOffset) && baseline == old(baseline)
      ensures backgroundedAt == old(backgroundedAt) && appStatus == old(appStatus)
    {
      position := SliderPosition(sliderOffset, dx);
      var newDuration := GestureDuration(baseline, dx, store.isPremium);
      if newDuration != duration {
        duration := newDuration;
        timeLeft := newDuration * 60;
        totalTime := newDuration * 60;
      }
    }

    /** Gesture release: the clamped position becomes the persistent offset, with no
        snap back to the centre. */
    method GestureRelease(dx: int)
      requires Valid() && !isRunning
      modifies this
      ensures Valid()
      ensures sliderOffset == SliderPosition(old(sliderOffset), dx)
      ensures timeLeft == old(timeLeft) && totalTime == old(totalTime) && duration == old(duration)
      ensures isRunning == old(isRunning) && baseline == old(baseline)
      ensures backgroundedAt == old(backgroundedAt) && appStatus == old(appStatus)
    {
      sliderOffset := SliderPosition(sliderOffset, dx);
    }
  }

  /** A 20-minute session backgrounded after one tick and brought back 1200 seconds
      later: the foreground update empties the countdown and the next tick completes
      it, recording 20 minutes exactly once. */
  method ForegroundAfterLongAbsence(tzOffsetMs: int) returns (recorded: seq<Session>, stillRunning: bool)
    ensures recorded == [Session(1000001200000, 20, 1000001200000)]
    ensures !stillRunning
  {
    var store := new FocusStore(tzOffsetMs);
    var timer := new FocusTimer(store, Active);
    timer.Start();
    var _ := timer.Tick(false, 1000000000000);
    assert timer.timeLeft == 1199 && store.sessions == [];
    timer.AppStateChange(Background, 1000000000000);
    timer.AppStateChange(Active, 1000001200000);
    assert timer.timeLeft == 0;
    var _ := timer.Tick(false, 1000001200000);
    recorded := store.sessions;
    stillRunning := timer.isRunning;
  }
}
