/** The settings screen: editors for the default focus duration and the daily
    goal, each a modal with a numeric text field whose text is parsed with
    `parseInt(text, 10)` and accepted only within its range, and a confirmation
    modal that clears the history. */
module Settings {
  import opened Optional
  import opened Decimal
  import opened AppStore

  const MaxDuration: int := 180
  const MaxGoal: int := 1440
  /** The `maxLength` of the two text fields. */
  const DurationFieldLength: nat := 3
  const GoalFieldLength: nat := 4

  /** A parsed number inside `1 .. max`, or nothing (NaN and out-of-range values alike). */
  function WithinRange(parsed: Option<int>, max: int): (r: Option<int>)
    ensures r.Some? <==> parsed.Some? && 0 < parsed.value <= max
    ensures r.Some? ==> r == parsed
  {
    if parsed.Some? && parsed.value > 0 && parsed.value <= max then parsed else None
  }

  /** What `handleDurationSave` accepts: a number of minutes from 1 to 180. */
  function AcceptDuration(text: string): (r: Option<int>)
    ensures r.Some? ==> 1 <= r.value <= MaxDuration
    ensures r.Some? ==> ParseIntBase10(text) == r
  {
    WithinRange(ParseIntBase10(text), MaxDuration)
  }

  /** What `handleGoalSave` accepts: a number of minutes from 1 to 1440. */
  function AcceptGoal(text: string): (r: Option<int>)
    ensures r.Some? ==> 1 <= r.value <= MaxGoal
    ensures r.Some? ==> ParseIntBase10(text) == r
  {
    WithinRange(ParseIntBase10(text), MaxGoal)
  }

  /** Reopening an editor shows the stored value's numeral; saving it unchanged gives
      the stored value back exactly when that value is within the editor's range. */
  lemma ReopenedEditorsSaveStoredValue(v: nat)
    ensures AcceptDuration(NatToString(v)) == if 1 <= v <= MaxDuration then Some(v) else None
    ensures AcceptGoal(NatToString(v)) == if 1 <= v <= MaxGoal then Some(v) else None
  {
    assert NatToString(v) + [] == NatToString(v);
    ParseNumeral(v, []);
  }

  /** Leading white space and any trailing text that does not start with a digit are
      ignored, so a numeral in range followed by, say, " min" is accepted. */
  lemma AcceptIgnoresSurroundings(ws: string, v: nat, rest: string)
    requires forall i :: 0 <= i < |ws| ==> IsJsWhiteSpace(ws[i])
    requires rest == [] || !IsDigit(rest[0])
    ensures AcceptDuration(ws + NatToString(v) + rest) == if 1 <= v <= MaxDuration then Some(v) else None
    ensures AcceptGoal(ws + NatToString(v) + rest) == if 1 <= v <= MaxGoal then Some(v) else None
  {
    assert ws + NatToString(v) + rest == ws + (NatToString(v) + rest);
    ParseSkipsWhiteSpace(ws, NatToString(v) + rest);
    ParseNumeral(v, rest);
  }

  /** Text with no digit after the white space and the sign (NaN) is never accepted. */
  lemma NaNRejected(text: string)
    requires ParseIntBase10(text).None?
    ensures AcceptDuration(text).None? && AcceptGoal(text).None?
  {
  }

  class SettingsScreen {
    const store: FocusStore
    var durationModalVisible: bool
    var goalModalVisible: bool
    var resetModalVisible: bool
    var tempDuration: string
    var tempGoal: string

    ghost predicate Valid()
      reads this, store
    {
      store.Valid()
    }

    /** The text fields start from the stored values, all modals closed. */
    constructor(store: FocusStore)
      requires store.Valid()
      ensures Valid() && this.store == store
      ensures tempDuration == NatToString(store.defaultDuration)
      ensures tempGoal == NatToString(store.dailyGoal)
      ensures !durationModalVisible && !goalModalVisible && !resetModalVisible
    {
      this.store := store;
      tempDuration := NatToString(store.defaultDuration);
      tempGoal := NatToString(store.dailyGoal);
      durationModalVisible := false;
      goalModalVisible := false;
      resetModalVisible := false;
    }

    /** Opening the duration editor re-seeds its text from the stored value. */
    method OpenDurationEditor()
      requires Valid()
      modifies this
      ensures Valid()
      ensures durationModalVisible && tempDuration == NatToString(store.defaultDuration)
      ensures goalModalVisible == old(goalModalVisible) && resetModalVisible == old(resetModalVisible)
      ensures tempGoal == old(tempGoal)
    {
      tempDuration := NatToString(store.defaultDuration);
      durationModalVisible := true;
    }

    /** Opening the goal editor re-seeds its text from the stored value. */
    method OpenGoalEditor()
      requires Valid()
      modifies this
      ensures Valid()
      ensures goalModalVisible && tempGoal == NatToString(store.dailyGoal)
      ensures durationModalVisible == old(durationModalVisible) && resetModalVisible == old(resetModalVisible)
      ensures tempDuration == old(tempDuration)
    {
      tempGoal := NatToString(store.dailyGoal);
      goalModalVisible := true;
    }

    /** Typing in the duration field, which holds at most 3 characters. */
    method EditDuration(text: string)
      requires Valid() && |text| <= DurationFieldLength
      modifies this
      ensures Valid()
      ensures tempDuration == text && tempGoal == old(tempGoal)
      ensures durationModalVisible == old(durationModalVisible) && goalModalVisible == old(goalModalVisible)
      ensures resetModalVisible == old(resetModalVisible)
    {
      tempDuration := text;
    }

    /** Typing in the goal field, which holds at most 4 characters. */
    method EditGoal(text: string)
      requires Valid() && |text| <= GoalFieldLength
      modifies this
      ensures Valid()
      ensures tempGoal == text && tempDuration == old(tempDuration)
      ensures durationModalVisible == old(durationModalVisible) && goalModalVisible == old(goalModalVisible)
      ensures resetModalVisible == old(resetModalVisible)
    {
      tempGoal := text;
    }

    /** CANCEL (or the back gesture) on the duration editor. */
    method CloseDurationEditor()
      requires Valid()
      modifies this
      ensures Valid()
      ensures !durationModalVisible
      ensures goalModalVisible == old(goalModalVisible) && resetModalVisible == old(resetModalVisible)
      ensures tempDuration == old(tempDuration) && tempGoal == old(tempGoal)
    {
      durationModalVisible := false;
    }

    /** CANCEL (or the back gesture) on the goal editor. */
    method CloseGoalEditor()
      requires Valid()
      modifies this
      ensures Valid()
      ensures !goalModalVisible
      ensures durationModalVisible == old(durationModalVisible) && resetModalVisible == old(resetModalVisible)
      ensures tempDuration == old(tempDuration) && tempGoal == old(tempGoal)
    {
      goalModalVisible := false;
    }

    /** `handleDurationSave`: an accepted value becomes the default duration and closes
        the editor; anything else changes nothing and leaves the editor open. */
    method SaveDuration()
      requires Valid()
      modifies this, store
      ensures Valid()
      ensures AcceptDuration(tempDuration).Some? ==>
        store.defaultDuration == AcceptDuration(tempDuration).value && !durationModalVisible
      ensures AcceptDuration(tempDuration).None? ==>
        store.defaultDuration == old(store.defaultDuration) && durationModalVisible == old(durationModalVisible)
      ensures store.dailyGoal == old(store.dailyGoal) && store.sessions == old(store.sessions)
      ensures store.currentStreak == old(store.currentStreak) && store.bestStreak == old(store.bestStreak)
      ensures store.isPremium == old(store.isPremium)
      ensures goalModalVisible == old(goalModalVisible) && resetModalVisible == old(resetModalVisible)
      ensures tempDuration == old(tempDuration) && tempGoal == old(tempGoal)
    {
      var accepted := AcceptDuration(tempDuration);
      if accepted.Some? {
        store.UpdateDefaultDuration(accepted.value);
        durationModalVisible := false;
      }
    }

    /** `handleGoalSave`: an accepted value becomes the daily goal and closes the
        editor; anything else changes nothing and leaves the editor open. */
    method SaveGoal()
      requires Valid()
      modifies this, store
      ensures Valid()
      ensures AcceptGoal(tempGoal).Some? ==>
        store.dailyGoal == AcceptGoal(tempGoal).value && !goalModalVisible
      ensures AcceptGoal(tempGoal).None? ==>
        store.dailyGoal == old(store.dailyGoal) && goalModalVisible == old(goalModalVisible)
      ensures store.defaultDuration == old(store.defaultDuration) && store.sessions == old(store.sessions)
      ensures store.currentStreak == old(store.currentStreak) && store.bestStreak == old(store.bestStreak)
      ensures store.isPremium == old(store.isPremium)
      ensures durationModalVisible == old(durationModalVisible) && resetModalVisible == old(resetModalVisible)
      ensures tempDuration == old(tempDuration) && tempGoal == old(tempGoal)
    {
      var accepted := AcceptGoal(tempGoal);
      if accepted.Some? {
        store.UpdateDailyGoal(accepted.value);
        goalModalVisible := false;
      }
    }

    method OpenResetConfirmation()
      requires Valid()
      modifies this
      ensures Valid()
      ensures resetModalVisible
      ensures durationModalVisible == old(durationModalVisible) && goalModalVisible == old(goalModalVisible)
      ensures tempDuration == old(tempDuration) && tempGoal == old(tempGoal)
    {
      resetModalVisible := true;
    }

    method CancelReset()
      requires Valid()
      modifies this
      ensures Valid()
      ensures !resetModalVisible
      ensures durationModalVisible == old(durationModalVisible) && goalModalVisible == old(goalModalVisible)
      ensures tempDuration == old(tempDuration) && tempGoal == old(tempGoal)
    {
      resetModalVisible := false;
    }

    /** `handleResetConfirm`: clears the history and closes the confirmation. */
    method ConfirmReset()
      requires Valid()
      modifies this, store
      ensures Valid()
      ensures store.sessions == [] && store.currentStreak == 0 && !resetModalVisible
      ensures store.bestStreak == old(store.bestStreak)
      ensures store.defaultDuration == old(store.defaultDuration) && store.dailyGoal == old(store.dailyGoal)
      ensures store.isPremium == old(store.isPremium)
      ensures durationModalVisible == old(durationModalVisible) && goalModalVisible == old(goalModalVisible)
      ensures tempDuration == old(tempDuration) && tempGoal == old(tempGoal)
    {
      store.ResetHistory();
      resetModalVisible := false;
    }
  }
}
