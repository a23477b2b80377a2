# Focus timer: sessions, streaks and the countdown

This project models the logic of a focus-timer app. The user runs countdown
focus sessions. Finished or stopped sessions are recorded in a session list.
The app derives from that list:

- the current and best streaks of consecutive active days;
- today's, this week's, this month's and all-time focused minutes;
- the average minutes per active day.

The model covers:

- **Calendar** (`calendar.dfy`): local days as integer day numbers for a fixed UTC offset.
- **Sessions** (`sessions.dfy`): the session record and the filter-then-sum statistics of the app context.
- **Streaks** (`streaks.dfy`):
  - the streak specification: runs of consecutive days, the leading run and the longest run;
  - the imperative steps of `calculateStreaks`: collect the days into a set, sort them newest first, then run the two scans.
- **AppStore** (`store.dfy`): the app context as a class, `FocusStore`. It holds the session list, the settings, the streak counters and the premium flag, with the operations that replace them.
- **Decimal** (`decimal.dfy`):
  - decimal numerals and `padStart(2, "0")`;
  - JavaScript's `parseInt(text, 10)`: white space, sign, then the longest digit prefix, with NaN as `None`.
- **Timer** (`timer.dfy`): the home screen's countdown as a class, `FocusTimer`. It covers start, the one-second tick, completion, user stop, background/foreground compensation and the duration gesture. The pure arithmetic is kept beside it: clamps, rounding and `formatTime`.
- **Settings** (`settings.dfy`): the settings screen as a class, `SettingsScreen`. Its two numeric editors accept 1–180 and 1–1440. It also has the reset confirmation.
- **Signup** (`signup.dfy`): the sign-up form's guard chain, plus a small class for the loading flag around the request.

Clock readings, "today", the time zone offset, the calendar month threshold, the
user's confirmations and the remote store's answers are all parameters.

Some behaviours of the code worth knowing when reading the model:

- A foreground update that empties the countdown does not complete the session. The next one-second tick sees 0 and completes it. `Timer.ForegroundAfterLongAbsence` walks through this case.
- The backgrounded instant is also recorded when the app passes from "inactive" to "background": `"inactive".match(/active/)` is truthy.
- A confirmed stop shows its own messages ("Saved! …", or a failure notice), not the completion's. It records the session locally whatever the remote answer was.
- The duration after a completion or a stop is not reset. Only `timeLeft` and `totalTime` go back to the default.
- The foreground update in the class is the corrected one, `Timer.Compensate`, which treats a negative time away as 0 (see "## Findings"). The update as written is `Timer.CompensateAsWritten`.

## Model

| member | source | states |
|---|---|---|
| Calendar.MidnightStartsDay | src/context/AppContext.js:82-84 | bucketing a timestamp to its local midnight gives the day whose midnight is at or before it and whose next midnight is after it; the midnight of a day buckets to that day |
| Calendar.DayOf | src/context/AppContext.js:81-84 | the local day number of a timestamp, `floor((ts + offset) / 86 400 000)`, standing for `setHours(0,0,0,0)`; `MidnightStartsDay` shows it is the day whose midnight is the latest at or before the timestamp |
| Calendar.SinceMidnightIsDayFilter | src/context/AppContext.js:182-190 | `timestamp >= midnight(d)` holds exactly when the timestamp's day is `d` or later |
| Sessions.DaySet | src/context/AppContext.js:222-227 | every session's day is in the set of active days |
| Sessions.TodayMinutes | src/context/AppContext.js:182-190 | the sum of the durations of the sessions whose timestamp is at or after today's local midnight; `SumSinceMidnightByDay` shows these are the sessions dated today or later, and `WindowsOrdered` places it below the weekly sum |
| Sessions.WeeklyMinutes | src/context/AppContext.js:193-202 | the sum of the durations of the sessions at or after the local midnight seven days before today; `WindowsOrdered` places it between today's and the monthly sum |
| Sessions.MonthlyMinutes | src/context/AppContext.js:204-213 | the sum of the durations of the sessions at or after the local midnight of the day one calendar month back; `WindowsOrdered` places it between the weekly sum and the total |
| Sessions.TotalMinutes | src/context/AppContext.js:215-217 | the sum of all durations; `SumSinceAtMostTotal` bounds every window by it, and `RecordedTodayCounts` shows a new record adds its duration |
| Sessions.AverageDailyMinutes | src/context/AppContext.js:219-233 | 0 for no sessions, otherwise the total divided by the number of distinct local days; `AverageDailyDivisor` shows that divisor lies between 1 and the number of sessions |
| Sessions.DaySetHoldsOnlySessionDays | src/context/AppContext.js:80-85 | every day in the set is the day of some session |
| Sessions.SumSinceAntitone | src/context/AppContext.js:187-189 | with non-negative durations, a later threshold never selects more minutes |
| Sessions.SumSinceAtMostTotal | src/context/AppContext.js:210-217 | with non-negative durations, a windowed sum lies between 0 and the total |
| Sessions.WindowsOrdered | src/context/AppContext.js:182-217 | with non-negative durations and a month threshold 28–31 days back: 0 ≤ today ≤ weekly ≤ monthly ≤ total |
| Sessions.SumSinceMidnightByDay | src/context/AppContext.js:182-190 | today's filter on milliseconds equals summing the sessions whose local day is today or later |
| Sessions.RecordedTodayCounts | src/context/AppContext.js:138-146 | prepending a session dated today adds its duration to today's, the weekly, the monthly and the total minutes |
| Sessions.DaySetAtMostSessions | src/context/AppContext.js:222-230 | there are never more distinct active days than sessions |
| Sessions.AverageDailyDivisor | src/context/AppContext.js:219-233 | the average is 0 for no sessions; otherwise the divisor is between 1 and the number of sessions, and the average is total / distinct days |
| Sessions.FreshIdKeepsIdsUnique | src/context/AppContext.js:139-143 | with a strictly increasing clock, the new record's id keeps all ids distinct |
| Streaks.LeadingRun | src/context/AppContext.js:100-111 | the count is a run of 1-day gaps from the newest day, and the next gap (if any) is not 1 day |
| Streaks.CurrentStreak | src/context/AppContext.js:99-111 | the leading run when the newest active day is today or yesterday, and 0 otherwise or with no active days; `StreakOverSortedDays` and `CurrentStreakIsConsecutiveDays` state what it counts, and `CurrentStreakScan` proves the loop computes it |
| Streaks.LongestRun | src/context/AppContext.js:115-128 | some run has this length, and no run is longer |
| Streaks.BestCoversCurrent | src/context/AppContext.js:88-128 | for a non-empty list, 1 ≤ longest run ≤ number of days, and the current streak ≤ longest run |
| Streaks.StreakOverSortedDays | src/context/AppContext.js:99-111 | in a strictly descending day list, a positive current streak `c` starts today or yesterday, the `c` days ending at the newest are all listed, and the day before them is not |
| Streaks.CurrentStreakIsConsecutiveDays | src/context/AppContext.js:99-111 | the same, stated over the set of active days itself |
| Streaks.SessionTodayStartsStreak | src/context/AppContext.js:80-111 | a session today (and none in the future) makes the current streak at least 1 |
| Streaks.Descending | src/context/AppContext.js:87-88 | the newest-first listing of the distinct days is strictly descending and as long as the set |
| Streaks.DescendingLists | src/context/AppContext.js:87-88 | the listing holds exactly the days of the set |
| Streaks.StrictlyDescendingUnique | src/context/AppContext.js:88 | a set has only one strictly descending listing, so any correct sort yields the specification's list |
| Streaks.CollectDays | src/context/AppContext.js:79-85 | the `forEach` into a set collects exactly the days of the sessions |
| Streaks.SortDescending | src/context/AppContext.js:87-88 | the sort yields the strictly descending listing of the day set |
| Streaks.StreakRuns | src/context/AppContext.js:90-128 | the two scans yield the current streak and the longest run |
| Streaks.CurrentStreakScan | src/context/AppContext.js:90-111 | 0 unless the newest day is today or yesterday; otherwise the length of the leading run |
| Streaks.LongestRunScan | src/context/AppContext.js:115-128 | `tempStreak`/`maxStreak` with the final fold yield the longest run |
| AppStore.FocusStore.constructor | src/context/AppContext.js:15-21 | empty history, 20-minute default duration, 60-minute goal, streaks 0, not premium |
| AppStore.FocusStore.CalculateStreaks | src/context/AppContext.js:73-135 | empty history: current 0 and best untouched; otherwise current is the current streak of the active days, and best is raised to the longest run only when that is larger; best never decreases and stays ≥ current |
| AppStore.FocusStore.AddSession | src/context/AppContext.js:138-146 | exactly one record `(now, d, now)` is prepended to the unchanged old list, id and timestamp taken from one clock reading; the current streak becomes that of the new list's active days on the day of `now`, and the best is raised to their longest run when that is larger, else kept; records of at least one minute keep every duration positive |
| AppStore.FocusStore.ResetHistory | src/context/AppContext.js:173-180 | the list is empty, the current streak 0, the best streak unchanged |
| AppStore.FocusStore.UpdateDefaultDuration | src/context/AppContext.js:155-162 | only the default duration changes |
| AppStore.FocusStore.UpdateDailyGoal | src/context/AppContext.js:164-171 | only the daily goal changes |
| AppStore.FocusStore.TogglePremium | src/context/AppContext.js:235-243 | the premium flag flips; nothing else changes |
| Decimal.NatToString | src/screens/HomeScreen.js:259-261 | the numeral is all digits, has no leading zero (except "0"), and denotes the number |
| Decimal.PadTwo | src/screens/HomeScreen.js:259-261 | left-pads with zeros to at least 2 characters and keeps the text as its suffix |
| Decimal.PadTwoKeepsValue | src/screens/HomeScreen.js:259-261 | padding does not change the value of a numeral |
| Decimal.LeadingZeros | src/screens/HomeScreen.js:259-261 | leading zeros do not change the value of a digit string |
| Decimal.SkipWhiteSpace | src/screens/SettingsScreen.js:17 | what remains after the skipped prefix starts with a non-white-space character, and everything skipped is white space |
| Decimal.DigitPrefixLength | src/screens/SettingsScreen.js:17 | the prefix of this length is all digits and is maximal |
| Decimal.ParseNumeral | src/screens/SettingsScreen.js:17 | `parseInt` of a numeral followed by non-digit text gives the number back |
| Decimal.ParseIntBase10 | src/screens/SettingsScreen.js:17-25 | `parseInt(text, 10)`: skip the white space, take an optional sign and the longest run of decimal digits, NaN (`None`) when there is no digit; `ParseNumeral`, `ParseSkipsWhiteSpace`, `ParseNegative` and `ParseNaNWhenNoDigits` state its behaviour |
| Decimal.ParseSkipsWhiteSpace | src/screens/SettingsScreen.js:25 | leading white space does not change `parseInt`'s result |
| Decimal.ParseNaNWhenNoDigits | src/screens/SettingsScreen.js:17-18 | the result is NaN exactly when no digit follows the white space and the sign |
| Decimal.ParseNegative | src/screens/SettingsScreen.js:25-26 | a leading minus negates the value, so "-5" parses to -5 (and is then out of range) |
| Timer.Clamp | src/screens/HomeScreen.js:83-86 | the result lies in the bounds, equals the input inside them, and equals the nearer bound outside them |
| Timer.DurationCap | src/screens/HomeScreen.js:81-82 | the cap is 999 for premium accounts and 20 for free accounts |
| Timer.DeltaMinutes | src/screens/HomeScreen.js:77-79 | the delta is the nearest integer to 0.15 × the drag, halves rounded up |
| Timer.SliderPosition | src/screens/HomeScreen.js:55-60 | the slider position lies in [-450, 450] |
| Timer.GestureDuration | src/screens/HomeScreen.js:77-86 | the new duration lies in [1, cap] |
| Timer.GestureDurationMonotone | src/screens/HomeScreen.js:76-86 | dragging further right never selects a shorter duration |
| Timer.SmallDragKeepsBaseline | src/screens/HomeScreen.js:77-86 | a drag of under 4 pixels keeps an in-range baseline |
| Timer.RoundMinutes | src/screens/HomeScreen.js:195 | the result is the nearest whole minute, halves rounded up |
| Timer.RoundExactMinutes | src/screens/HomeScreen.js:195 | for a whole number of minutes, rounding is exact |
| Timer.WholeMinutes | src/screens/HomeScreen.js:220-221 | the floor: `60·m ≤ used < 60·m + 60` |
| Timer.FormatTime | src/screens/HomeScreen.js:256-262 | the face is at least 5 characters, with ':' before the last two |
| Timer.FormatTimeReadsBack | src/screens/HomeScreen.js:256-262 | the face is the padded minutes field plus ":SS"; reading it back, with a seconds field that must be two digits below 60, gives `s` |
| Timer.ReadClockFields | src/screens/HomeScreen.js:256-262 | a face that reads back as `s` has `floor(s/60)` in its minutes field and `s % 60` in its seconds field, so with `FormatTimeReadsBack` the face's fields are exactly those |
| Timer.ElapsedSeconds | src/screens/HomeScreen.js:151-153 | the floor of the milliseconds over 1000 |
| Timer.CompensateAsWritten | src/screens/HomeScreen.js:150-157 | the code's update is never negative, and never exceeds the old value while the clock runs forward |
| Timer.CompensateAsWrittenGainsTime | src/screens/HomeScreen.js:150-157 | with the clock set back 5 s, 10 seconds left become 15 |
| Timer.Compensate | src/screens/HomeScreen.js:150-158 | the remaining time never grows; it agrees with the code whenever the clock runs forward; under a second away changes nothing |
| Timer.CompensateTwice | src/screens/HomeScreen.js:150-158 | two stays of whole seconds cost the same as one stay of their total; each stay loses its sub-second remainder, so this does not hold for stays of fractional seconds |
| Timer.CompensateDropsRemainders | src/screens/HomeScreen.js:151-156 | two stays of 0.6 s leave 10 s at 10 s, while one stay of 1.2 s leaves 9 s: each stay's sub-second remainder is dropped |
| Timer.FocusTimer.constructor | src/screens/HomeScreen.js:17-32 | the screen starts stopped at the stored default duration, offset 0 |
| Timer.MatchesActive | src/screens/HomeScreen.js:140-146 | `status.match(/active/)` holds for "active" and also for "inactive", which contains that word; `AppStateChange` uses it for the move to the background |
| Timer.MatchesBackground | src/screens/HomeScreen.js:140-146 | `status.match(/background/)` holds only for "background"; `AppStateChange` uses it for the return to the foreground |
| Timer.FocusTimer.Start | src/screens/HomeScreen.js:212-214 | only the running flag changes |
| Timer.FocusTimer.Tick | src/screens/HomeScreen.js:169-179 | above 1 it counts down by one and leaves the history and streaks alone; at 1 or less it completes, recording the session and recomputing the streaks; the default duration, goal and premium flag never change; `0 ≤ timeLeft ≤ totalTime` is kept |
| Timer.FocusTimer.Complete | src/screens/HomeScreen.js:193-210 | stops, records `totalTime/60` minutes whatever the remote answer, and announces it only on remote success; the streaks are those `AddSession` gives; default, goal and premium flag unchanged; both times reset to the default |
| Timer.FocusTimer.Stop | src/screens/HomeScreen.js:216-254 | stops; it prompts with `floor(used/60)` only when that is ≥ 1; it records only when that is ≥ 1 and confirmed, and then the streaks are those `AddSession` gives, otherwise they are unchanged; it reports the remote outcome; default, goal and premium flag unchanged; both times always reset to the default |
| Timer.FocusTimer.AppStateChange | src/screens/HomeScreen.js:138-162 | records the instant when leaving an active/inactive state for the background while running; on return to active while running with an instant, applies the corrected update `Compensate` (not the update as written, which can add time) and clears the instant; otherwise time and instant are unchanged |
| Timer.FocusTimer.GestureGrant | src/screens/HomeScreen.js:47-50 | the baseline becomes the current duration |
| Timer.FocusTimer.GestureMove | src/screens/HomeScreen.js:51-92 | returns the clamped slider position; the duration becomes the clamped gesture duration; only when it changed are both times set to it in seconds |
| Timer.FocusTimer.GestureRelease | src/screens/HomeScreen.js:109-121 | the persistent offset becomes the clamped position |
| Timer.ForegroundAfterLongAbsence | src/screens/HomeScreen.js:140-178 | a 20-minute session backgrounded after one tick and resumed 1200 s later records 20 minutes once, on the next tick |
| Settings.WithinRange | src/screens/SettingsScreen.js:18 | a value is kept exactly when it is a number in `1..max` |
| Settings.AcceptDuration | src/screens/SettingsScreen.js:16-18 | an accepted duration is the parsed value and lies in 1–180 |
| Settings.AcceptGoal | src/screens/SettingsScreen.js:24-26 | an accepted goal is the parsed value and lies in 1–1440 |
| Settings.ReopenedEditorsSaveStoredValue | src/screens/SettingsScreen.js:55-57 | reopening an editor and saving it unchanged gives the stored value back exactly when that value is in the editor's range |
| Settings.AcceptIgnoresSurroundings | src/screens/SettingsScreen.js:16-29 | leading white space and trailing non-digit text are ignored, so "15 min" is accepted as 15 |
| Settings.NaNRejected | src/screens/SettingsScreen.js:17-18 | NaN is never accepted |
| Settings.SettingsScreen.constructor | src/screens/SettingsScreen.js:10-14 | the fields start from the stored values; all modals are closed |
| Settings.SettingsScreen.OpenDurationEditor | src/screens/SettingsScreen.js:55-58 | the editor opens with the stored duration's numeral |
| Settings.SettingsScreen.OpenGoalEditor | src/screens/SettingsScreen.js:67-70 | the editor opens with the stored goal's numeral |
| Settings.SettingsScreen.EditDuration | src/screens/SettingsScreen.js:108-116 | the field takes the typed text (at most 3 characters) |
| Settings.SettingsScreen.EditGoal | src/screens/SettingsScreen.js:151-159 | the field takes the typed text (at most 4 characters) |
| Settings.SettingsScreen.CloseDurationEditor | src/screens/SettingsScreen.js:119-125 | the duration editor closes; nothing else changes |
| Settings.SettingsScreen.CloseGoalEditor | src/screens/SettingsScreen.js:162-168 | the goal editor closes; nothing else changes |
| Settings.SettingsScreen.SaveDuration | src/screens/SettingsScreen.js:16-22 | an accepted value is stored and the editor closes; otherwise nothing changes and the editor stays open |
| Settings.SettingsScreen.SaveGoal | src/screens/SettingsScreen.js:24-30 | an accepted value is stored and the editor closes; otherwise nothing changes and the editor stays open |
| Settings.SettingsScreen.OpenResetConfirmation | src/screens/SettingsScreen.js:77-80 | the reset confirmation opens |
| Settings.SettingsScreen.CancelReset | src/screens/SettingsScreen.js:196-200 | the reset confirmation closes; nothing else changes |
| Settings.SettingsScreen.ConfirmReset | src/screens/SettingsScreen.js:32-35 | the history is emptied, the current streak is 0, the best streak is unchanged, and the confirmation closes |
| Signup.CheckForm | src/screens/SignupScreen.js:22-39 | a request is made exactly when all fields are filled, the passwords match and the password has at least 6 characters; it carries exactly the email and the password |
| Signup.ErrorMessage | src/screens/SignupScreen.js:24-34 | the alert texts of the three checks: "Please fill in all fields", "Passwords do not match", "Password must be at least 6 characters"; `SignupForm.Submit` shows the one `FirstFailingCheckWins` selects |
| Signup.FirstFailingCheckWins | src/screens/SignupScreen.js:23-36 | each error is reported exactly when its check is the first to fail |
| Signup.SignupForm.constructor | src/screens/SignupScreen.js:17-20 | empty fields, not loading |
| Signup.SignupForm.Edit | src/screens/SignupScreen.js:62-93 | the fields take the typed text |
| Signup.SignupForm.Submit | src/screens/SignupScreen.js:22-39 | a rejected form shows "Error" with its message and requests nothing; an accepted one requests `(email, password)` and sets the loading flag |
| Signup.SignupForm.Answer | src/screens/SignupScreen.js:40-50 | the loading flag drops and the success or failure alert is shown |

## Left out

- Persistence is not modelled.
  - This covers `loadData`, the AsyncStorage writes and the `isLoading` flag of the app context.
  - The store starts from the in-memory defaults. The streak recomputation that the context runs whenever the session list changes is folded into `AddSession` and `ResetHistory`.
- The remote store and authentication are parameters.
  - The remote save and the account service appear only as success/failure answers.
  - `window.confirm` appears only as the user's answer.
  - Logout and the navigation after a successful sign-up are not modelled.
- Clock and calendar are inputs.
  - The clock is the `nowMs` parameter.
  - Local time is a fixed UTC offset, so there is no daylight-saving time. A day is always 86 400 000 ms, and the code's `dayDiff === 1` becomes an integer day difference of 1.
  - The date one calendar month back is the input `monthAgoDay`. It is assumed to lie 28–31 days back in `Sessions.WindowsOrdered`.
- Floating point is not modelled.
  - The average is a `real` quotient.
  - `Math.round(dx * 0.15)` is computed exactly, for whole-pixel drags. A binary rounding of 0.15 that lands a product just below a half is not modelled.
  - The progress bar is not modelled.
- Timer.DeltaMinutes: the drag distance is a whole number of pixels, not a floating-point displacement.
- The pan handlers are created once when the screen mounts. As written, they see that first render's `isRunning`, `duration`, `persistentSliderOffset` and `isPremium`. The model uses the current values, which is the evident intent.
- Timer.FocusTimer.GestureGrant, GestureMove and GestureRelease require a stopped timer. The slider is only rendered while stopped, and that alone keeps gestures out while running: the handlers' own `isRunning` tests see the first render's `false` and never fire. The 2-pixel move threshold of the gesture recogniser is not modelled.
- Timer.FocusTimer.Start and Stop require the stopped and running states respectively. The single button calls one or the other depending on that state.
- Timer.FocusTimer.Tick requires a running timer. The interval exists only while running.
- Timer.FocusTimer.Complete uses the store's current default duration and session list. As written, the interval is created when the timer starts and calls the `handleComplete` of that render, which reads the `defaultDuration` and, through `addSession`, the `sessions` list of that moment. The home tab stays mounted, so a default saved in the settings during a run is ignored at completion, and a history reset during a run is undone: the completion prepends to the list as it was at the start. The model does not capture this.
- Timer.FocusTimer.AppStateChange applies the corrected update `Timer.Compensate`, not the update as written (`Timer.CompensateAsWritten`). The two differ only when the clock goes back while the app is in the background; the timer's `timeLeft ≤ totalTime` invariant holds only for the corrected one.
- AppStore.FocusStore.AddSession takes the record's id and timestamp from one clock reading `nowMs`. The code reads the clock twice, once for each, so the two may differ by a millisecond.
- AppStore.FocusStore.AddSession requires at least one minute. The context stores any number, but both of its callers record at least one minute.
- Async ordering is simplified.
  - Completion is one atomic step: the tick's updater sets 0, then after the remote save's `await` the session is recorded and the times reset.
  - Intervals, AppState subscriptions, keep-awake and animations are event plumbing. Each event is a method call.
- AppStore.FocusStore.UpdateDefaultDuration and AppStore.FocusStore.UpdateDailyGoal require a positive value. The context stores any number, but the settings screen, their only caller, passes 1–180 and 1–1440.
- Settings.SettingsScreen.EditDuration and EditGoal require at most 3 and 4 characters. That is the fields' `maxLength`, enforced by the text input.
- Session ids: `Date.now().toString()` is the clock reading itself. Ids are distinct only under a strictly increasing clock (`Sessions.FreshIdKeepsIdsUnique`).
- The app-state strings are the four states React Native reports. The `/active/` and `/background/` regular expressions become predicates over those states.
- Password length is counted in characters. JavaScript counts UTF-16 code units, so the two differ for characters outside the Basic Multilingual Plane.
- The statistics and history screens only display these values. They are not modelled.

## Findings

| source | as written | input that shows it | evidently intended | confidence | as-written member | corrected member |
|---|---|---|---|---|---|---|
| src/screens/HomeScreen.js:151-156 | the remaining time becomes `max(prev - floor((now - backgroundedAt) / 1000), 0)`, which has no upper bound | the wall clock is set back 5 s while the app is in the background with 10 s left: the countdown shows 15 s, more than were left (and possibly more than the total) | the time away is never negative, so the remaining time never grows | medium; not executed | Timer.CompensateAsWritten, Timer.CompensateAsWrittenGainsTime | Timer.Compensate |
