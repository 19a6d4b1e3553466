/**
 * src/sections/daily-habit-section.tsx: the daily section that runs its own modal
 * reducer. Its habits carry a `type: 'daily'` tag, its weekday check tolerates a
 * missing weekday list, and it hands a finished habit to its parent only when the
 * modal habit is tagged daily. The today/all filter and the new-day modal listing are
 * the ones of `Rollover.HabitsListFiltered` and `DailyHabitSection.PendingModalHabits`.
 */
module DailyHabitSectionWithModal {
  import opened Types
  import opened ModalReducer
  import Rollover

  /**
   * `checkHabitByDay(habit, weekDay)` on the habit's optional weekday list: membership when
   * the list is there, `undefined` (`None`, falsy) when it is not.
   */
  function CheckHabitByDay(days: Option<seq<int>>, weekDay: int): (r: Option<bool>)
    ensures r.None? <==> days.None?
    ensures r == Some(true) <==> days.Some? && weekDay in days.value
  {
    if days.Some? then Some(weekDay in days.value) else None
  }

  /** On a habit that has its weekday list, the check agrees with the application's. */
  lemma CheckHabitByDayAgrees(h: DailyHabit, weekDay: int)
    ensures CheckHabitByDay(Some(h.daysOfTheWeek), weekDay) == Some(Rollover.CheckHabitByDay(h, weekDay))
  {
  }

  const DailyTag: JsValue := Str("daily")

  /** `createNewHabit(title)`, with the generated id passed in: the new habit's object, tagged daily. */
  function CreateNewHabit(id: string, title: string): (o: JsObject)
    ensures "type" in o && o["type"] == DailyTag
    ensures FromObject(o) == Some(Rollover.NewHabit(id, title))
  {
    FromObjectIgnoresExtraKeys(Rollover.NewHabit(id, title), map["type" := DailyTag]);
    ToObject(Rollover.NewHabit(id, title)) + map["type" := DailyTag]
  }

  /** The guard of `finishHabitCreation`: the create modal holds a habit tagged daily. */
  function HoldsDailyHabit(state: ModalState): (r: bool)
    ensures r ==> state.kind == Some(CreateHabitModal) && IsEditing(state)
    ensures r ==> "type" in HabitOf(state).value && HabitOf(state).value["type"] == DailyTag
    ensures state.kind != Some(CreateHabitModal) || HabitOf(state).None? ==> !r
  {
    state.kind == Some(CreateHabitModal) && HabitOf(state).Some?
    && "type" in HabitOf(state).value && HabitOf(state).value["type"] == DailyTag
  }

  /** What `finishHabitCreation` does: the habit handed to the parent, if any, and the modal after it. */
  datatype Finish = Finish(added: Option<JsObject>, modal: ModalState)

  /**
   * `finishHabitCreation()`: hands the modal habit to the parent and closes the modal when
   * the guard holds; otherwise nothing happens.
   */
  function FinishHabitCreation(state: ModalState): (f: Finish)
    ensures f.added.Some? <==> HoldsDailyHabit(state)
    ensures f.added.Some? ==> f.added == HabitOf(state) && f.modal == Closed
    ensures f.added.None? ==> f.modal == state
  {
    if HoldsDailyHabit(state) then Finish(HabitOf(state), Reduce(state, HideModal))
    else Finish(None, state)
  }

  /**
   * The creation flow: create, edit the title and the weekdays in the modal, save. The
   * edits do not touch the tag, so the parent receives the edited habit and the modal closes.
   */
  lemma CreateEditFinishAddsEditedHabit(state: ModalState, id: string, title: string, newTitle: string, days: seq<int>)
    ensures var s1 := Reduce(state, CreateHabit(CreateNewHabit(id, title)));
      var s2 := Reduce(s1, UpdateHabit(map["title" := Str(newTitle)]));
      var s3 := Reduce(s2, UpdateHabit(map["daysOfTheWeek" := Days(days)]));
      var f := FinishHabitCreation(s3);
      && f.added.Some?
      && FromObject(f.added.value) == Some(DailyHabit(id, newTitle, false, 0, days))
      && f.modal == Closed
  {
    var h := DailyHabit(id, newTitle, false, 0, days);
    var o0 := CreateNewHabit(id, title);
    var o := o0["title" := Str(newTitle)]["daysOfTheWeek" := Days(days)];
    assert o0 + map["title" := Str(newTitle)] == o0["title" := Str(newTitle)];
    assert o0["title" := Str(newTitle)] + map["daysOfTheWeek" := Days(days)] == o;
    assert o == ToObject(h) + map["type" := DailyTag];
    FromObjectIgnoresExtraKeys(h, map["type" := DailyTag]);
  }

  /** A habit edited through the update modal, or one whose tag was changed, is never handed over. */
  lemma FinishNeedsCreateModalAndTag(state: ModalState, patch: JsObject)
    ensures FinishHabitCreation(Reduce(state, DeleteHabit(patch))).added.None?
    ensures !IsEditing(state) ==> FinishHabitCreation(Reduce(state, UpdateHabit(patch))).added.None?
    ensures "type" in patch && patch["type"] != DailyTag ==>
      FinishHabitCreation(Reduce(state, UpdateHabit(patch))).added.None?
  {
  }
}
