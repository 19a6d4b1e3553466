/**
 * The stateful part of src/App.tsx: one session of the application, holding the
 * habit list, the persisted reset watermark, the two session flags kept in refs and
 * the modal state. Each method is one effect or handler of the component; the
 * pure logic they run lives in module Rollover.
 */
module App {
  import opened Types
  import opened ModalReducer
  import opened Rollover

  /** The create modal holds a habit: the guard of `finishHabitCreation`. */
  predicate IsCreating(state: ModalState) {
    state.kind == Some(CreateHabitModal) && HabitOf(state).Some?
  }

  class Session {
    /** `habitsList` */
    var habits: seq<DailyHabit>
    /** The current local date, as a day number. */
    var today: int
    /** The persisted `lastResetDate`, as a day number. */
    var lastReset: int
    /** `hasResetToday.current` */
    var hasResetToday: bool
    /** `hasCheckedPendingHabits.current` */
    var hasCheckedPendingHabits: bool
    /** `modalState`; the new-day modal's `pendingHabits` is the pending-id list. */
    var modal: ModalState

    /**
     * Mounting on day `now` with the stored list and stored watermark: the refs start as
     * `hasResetToday = true` and `hasCheckedPendingHabits = false`; a stored watermark
     * decides `hasResetToday`, a missing one is replaced by today and leaves the ref true.
     */
    constructor Load(stored: seq<DailyHabit>, storedLastReset: Option<int>, now: int)
      ensures habits == stored && today == now && modal == Closed && !hasCheckedPendingHabits
      ensures storedLastReset.Some? ==>
        lastReset == storedLastReset.value && hasResetToday == HasResetToday(now, storedLastReset.value)
      ensures storedLastReset.None? ==> lastReset == now && hasResetToday
    {
      habits := stored;
      today := now;
      modal := Closed;
      hasCheckedPendingHabits := false;
      if storedLastReset.Some? {
        lastReset := storedLastReset.value;
        hasResetToday := HasResetToday(now, storedLastReset.value);
      } else {
        lastReset := now;
        hasResetToday := true;
      }
    }

    /** The guard of line 77, under which the pending check runs. */
    predicate PendingCheckDue()
      reads this
    {
      !hasResetToday && |habits| > 0 && !hasCheckedPendingHabits
    }

    /**
     * `resetDailyHabits()`, also the new-day modal's "start a new day": saves today as the
     * watermark, closes the modal and rolls every habit over.
     */
    method ResetDailyHabits()
      modifies this
      ensures habits == Rollover.ResetDailyHabits(old(habits), today)
      ensures lastReset == today && modal == Closed
      ensures today == old(today) && hasResetToday == old(hasResetToday)
      ensures hasCheckedPendingHabits == old(hasCheckedPendingHabits)
    {
      lastReset := today;
      modal := Reduce(modal, HideModal);
      habits := Rollover.ResetDailyHabits(habits, today);
    }

    /**
     * The body of the effect of lines 71-88, which runs after every change of the habit
     * list. Its guard (line 77) passes at most once per session: on the first non-empty
     * list while the reset is due. It then opens the new-day modal on the pending ids and
     * changes nothing else, or, with nothing pending, resets at once. While the guard fails
     * the call changes nothing.
     */
    method CheckPendingHabits()
      modifies this
      ensures today == old(today) && hasResetToday == old(hasResetToday)
      ensures !old(PendingCheckDue()) ==> unchanged(this)
      ensures old(PendingCheckDue()) ==> hasCheckedPendingHabits
      ensures old(PendingCheckDue()) && PendingGate(old(habits), today).ShowPending? ==>
        && habits == old(habits)
        && lastReset == old(lastReset)
        && modal == Reduce(old(modal), ShowNewDay(PendingHabitIds(old(habits), today)))
      ensures old(PendingCheckDue()) && PendingGate(old(habits), today).ResetNow? ==>
        && habits == Rollover.ResetDailyHabits(old(habits), today)
        && lastReset == today
        && modal == Closed
    {
      if !hasResetToday && |habits| > 0 && !hasCheckedPendingHabits {
        hasCheckedPendingHabits := true;
        var pending := PendingHabitIds(habits, today);
        if |pending| > 0 {
          modal := Reduce(modal, ShowNewDay(pending));
        } else {
          ResetDailyHabits();
        }
      }
    }

    /**
     * The midnight timer's callback (lines 36-43) as the source evidently intends it: on
     * the new day, gate on the current list's pending habits. No streak is lost at midnight:
     * either nothing is pending and the reset keeps every streak, or the list is left alone
     * until the new-day modal is confirmed.
     */
    method MidnightTick(newDay: int)
      modifies this
      ensures today == newDay
      ensures hasResetToday == old(hasResetToday) && hasCheckedPendingHabits == old(hasCheckedPendingHabits)
      ensures PendingGate(old(habits), newDay).ShowPending? ==>
        && habits == old(habits)
        && lastReset == old(lastReset)
        && modal == Reduce(old(modal), ShowNewDay(PendingHabitIds(old(habits), newDay)))
      ensures PendingGate(old(habits), newDay).ResetNow? ==>
        && habits == Rollover.ResetDailyHabits(old(habits), newDay)
        && lastReset == newDay
        && modal == Closed
      ensures |habits| == |old(habits)|
      ensures forall i :: 0 <= i < |habits| ==> habits[i].streak == old(habits)[i].streak
    {
      GateProtectsStreaks(habits, newDay);
      today := newDay;
      var pending := PendingHabitIds(habits, today);
      if |pending| > 0 {
        modal := Reduce(modal, ShowNewDay(pending));
      } else {
        ResetDailyHabits();
      }
    }

    /**
     * The midnight timer's callback as written: the effect that sets up the timer runs once,
     * so the callback sees the `habitsList` of the first render, the empty list. The pending
     * list is therefore always empty and the reset always runs, on the current habits.
     */
    method MidnightTickAsWritten(newDay: int)
      modifies this
      ensures today == newDay
      ensures hasResetToday == old(hasResetToday) && hasCheckedPendingHabits == old(hasCheckedPendingHabits)
      ensures habits == Rollover.ResetDailyHabits(old(habits), newDay)
      ensures lastReset == newDay && modal == Closed
    {
      today := newDay;
      var mountedHabits: seq<DailyHabit> := [];
      var gate := PendingGate(mountedHabits, today);
      // The pending list of the empty list is empty: the gate always lets the reset through.
      assert gate == ResetNow;
      ResetDailyHabits();
    }

    /** `updateHabit(id, key, value)` */
    method UpdateHabit(id: string, u: FieldUpdate)
      modifies this`habits
      ensures habits == Rollover.UpdateHabit(old(habits), id, u)
    {
      habits := Rollover.UpdateHabit(habits, id, u);
    }

    /** `deleteHabit(id)` */
    method DeleteHabit(id: string)
      modifies this`habits
      ensures habits == Rollover.DeleteHabit(old(habits), id)
    {
      habits := Rollover.DeleteHabit(habits, id);
    }

    /** `modalDispatch(action)`, as the create modal's title input and weekday selector use it. */
    method Dispatch(action: ModalAction)
      modifies this`modal
      ensures modal == Reduce(old(modal), action)
    {
      modal := Reduce(modal, action);
    }

    /** `cancelHabitCreation()`: closes the create modal, dropping the habit in it. */
    method CancelHabitCreation()
      modifies this`modal
      ensures modal == Closed
      ensures HabitOf(modal).None? && PendingOf(modal).None?
    {
      modal := Reduce(modal, HideModal);
    }

    /** `createNewHabit(title)`, with the generated id passed in: opens the create modal on a new habit. */
    method CreateNewHabit(id: string, title: string)
      modifies this`modal
      ensures modal == Reduce(old(modal), CreateHabit(ToObject(NewHabit(id, title))))
      ensures IsCreating(modal) && FromObject(HabitOf(modal).value) == Some(NewHabit(id, title))
    {
      FromObjectToObject(NewHabit(id, title));
      modal := Reduce(modal, CreateHabit(ToObject(NewHabit(id, title))));
    }

    /**
     * `finishHabitCreation()`: in the create modal, appends the modal's habit and closes the
     * modal; otherwise nothing happens.
     */
    method FinishHabitCreation()
      modifies this`habits, this`modal
      ensures !IsCreating(old(modal)) ==> habits == old(habits) && modal == old(modal)
      ensures IsCreating(old(modal)) ==> modal == Closed
      ensures IsCreating(old(modal)) && FromObject(HabitOf(old(modal)).value).Some? ==>
        habits == old(habits) + [FromObject(HabitOf(old(modal)).value).value]
      ensures IsCreating(old(modal)) && FromObject(HabitOf(old(modal)).value).None? ==> habits == old(habits)
    {
      if IsCreating(modal) {
        var created := FromObject(HabitOf(modal).value);
        if created.Some? {
          habits := habits + [created.value];
        }
        modal := Reduce(modal, HideModal);
      }
    }
  }

  /**
   * The creation flow: a new habit whose title and weekdays were edited in the create modal
   * reads back as the new habit with those edits, so `finishHabitCreation` appends it.
   */
  lemma CreationFlowKeepsEdits(state: ModalState, id: string, title: string, newTitle: string, days: seq<int>)
    ensures var s1 := Reduce(state, CreateHabit(ToObject(NewHabit(id, title))));
      var s2 := Reduce(s1, UpdateHabit(map["title" := Str(newTitle)]));
      var s3 := Reduce(s2, UpdateHabit(map["daysOfTheWeek" := Days(days)]));
      && IsCreating(s3)
      && FromObject(HabitOf(s3).value) == Some(DailyHabit(id, newTitle, false, 0, days))
  {
    var h := NewHabit(id, title);
    var o := ToObject(h)["title" := Str(newTitle)]["daysOfTheWeek" := Days(days)];
    assert ToObject(h) + map["title" := Str(newTitle)] == ToObject(h)["title" := Str(newTitle)];
    assert ToObject(h)["title" := Str(newTitle)] + map["daysOfTheWeek" := Days(days)] == o;
    assert o == ToObject(DailyHabit(id, newTitle, false, 0, days));
    FromObjectToObject(DailyHabit(id, newTitle, false, 0, days));
  }

  /** The load-time check runs at most once: a second call changes nothing. */
  method CheckTwiceScenario(stored: seq<DailyHabit>, last: int, now: int)
  {
    var s := new Session.Load(stored, Some(last), now);
    s.CheckPendingHabits();
    var habitsAfterFirst, modalAfterFirst := s.habits, s.modal;
    s.CheckPendingHabits();
    assert s.habits == habitsAfterFirst && s.modal == modalAfterFirst;
  }

  /**
   * Watermark 2024-01-01 (day 19723), opened on 2024-01-03 (day 19725); the habit runs
   * Monday to Friday and was not done on Tuesday 2024-01-02: the new-day modal lists it
   * and nothing is reset. Had it been done, the reset runs at once and keeps its streak.
   */
  method NewDayScenario()
  {
    var h := DailyHabit("h1", "stretch", false, 3, [1, 2, 3, 4, 5]);
    assert IsPending(h, 19725);
    assert h in [h];
    var s := new Session.Load([h], Some(19723), 19725);
    s.CheckPendingHabits();
    assert PendingHabitIds([h], 19725) == ["h1"] by {
      var ids := PendingHabitIds([h], 19725);
      assert |ids| <= 1 && "h1" in ids;
    }
    assert s.habits == [h] && s.lastReset == 19723;
    assert PendingOf(s.modal) == Some(["h1"]);

    var d := h.(done := true);
    assert d in [d];
    var t := new Session.Load([d], Some(19723), 19725);
    t.CheckPendingHabits();
    assert t.habits[0].streak == 3 && !t.habits[0].done && t.lastReset == 19725;
  }

  /**
   * Stored watermark 2024-01-01 (day 19723), opened on 2024-01-03 (day 19725) with an empty
   * list: the check does not run. A habit created afterwards makes the list non-empty, the
   * effect runs again, and the new habit, scheduled every day and not done, is listed as
   * unfinished yesterday; the reset is still held back.
   */
  method CreateOnStaleEmptyListScenario()
  {
    var s := new Session.Load([], Some(19723), 19725);
    s.CheckPendingHabits();
    assert s.modal == Closed && !s.hasCheckedPendingHabits;
    s.CreateNewHabit("n1", "walk");
    s.FinishHabitCreation();
    var h := NewHabit("n1", "walk");
    assert s.habits == [h];
    EveryWeekdayScheduled(h, 19724);
    assert IsPending(h, 19725);
    assert h in [h];
    s.CheckPendingHabits();
    assert PendingHabitIds([h], 19725) == ["n1"] by {
      var ids := PendingHabitIds([h], 19725);
      assert |ids| <= 1 && "n1" in ids;
    }
    assert PendingOf(s.modal) == Some(["n1"]);
    assert s.habits == [h] && s.lastReset == 19723 && s.hasCheckedPendingHabits;
  }
}
