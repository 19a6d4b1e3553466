/**
 * src/sections/dailyHabitSection.tsx: the defaults and validation of a new daily
 * habit, the section's today/all filter and the habits the new-day modal lists.
 * The validation toast is dropped; the rejected field names what it reports.
 */
module DailyHabitSection {
  import opened Types
  import opened Collections
  import opened Rollover
  import Calendar

  /** `createDefaultHabit(id, title)`: not done, no streak, type `daily`, on all seven weekdays. */
  function CreateDefaultHabit(id: string, title: string): (h: DailyHabit)
    ensures h.id == id && h.title == title && !h.done && h.streak == 0
    ensures |h.daysOfTheWeek| == 7
    ensures forall d :: d in h.daysOfTheWeek <==> 0 <= d < 7
  {
    NewHabit(id, title)
  }

  /** `validateHabit(habit)`: the title is checked first, then the weekday list. */
  function ValidateHabit(h: DailyHabit): (v: Validation)
    ensures v == Accepted <==> h.title != "" && |h.daysOfTheWeek| > 0
    ensures h.title == "" ==> v == Rejected("title")
    ensures h.title != "" && |h.daysOfTheWeek| == 0 ==> v == Rejected("days")
  {
    if h.title == "" then Rejected("title")
    else if |h.daysOfTheWeek| == 0 then Rejected("days")
    else Accepted
  }

  /** A default habit is rejected only for a missing title. */
  lemma DefaultHabitValidates(id: string, title: string)
    ensures ValidateHabit(CreateDefaultHabit(id, title)) == Accepted <==> title != ""
  {
  }

  /**
   * With filter 1 (today), a habit just created from the defaults is shown, at the end of
   * the list: the filter keeps the order of the full list and keeps every-day habits.
   */
  lemma {:induction false} TodayFilterShowsNewHabit(habits: seq<DailyHabit>, id: string, title: string, today: int)
    ensures var h := CreateDefaultHabit(id, title);
      HabitsListFiltered(habits + [h], Some(1), today) == HabitsListFiltered(habits, Some(1), today) + [h]
  {
    var h := CreateDefaultHabit(id, title);
    var p := ScheduledOn(Calendar.Weekday(today));
    FilterAppend(habits, [h], p);
    EveryWeekdayScheduled(h, today);
    assert Filter([h], p) == [h] by {
      assert [h][1..] == [];
    }
  }

  /**
   * The new-day modal of the section: shown only while the pending-id list is non-empty,
   * listing exactly the habits whose id is pending, in list order.
   */
  function PendingModalHabits(habits: seq<DailyHabit>, pending: seq<string>): (r: Option<seq<DailyHabit>>)
    ensures r.Some? <==> |pending| > 0
    ensures r.Some? ==> |r.value| <= |habits|
    ensures r.Some? ==> forall h :: h in r.value <==> h in habits && h.id in pending
  {
    if |pending| > 0 then Some(Filter(habits, IdIn(pending))) else None
  }

  /** The modal list keeps the order of the habit list: listing distributes over concatenation. */
  lemma PendingModalKeepsOrder(a: seq<DailyHabit>, b: seq<DailyHabit>, pending: seq<string>)
    requires |pending| > 0
    ensures PendingModalHabits(a + b, pending).value
      == PendingModalHabits(a, pending).value + PendingModalHabits(b, pending).value
  {
    FilterAppend(a, b, IdIn(pending));
  }

  /**
   * Fed with the pending ids of the rollover, the modal appears exactly when the rollover
   * holds back the reset, and lists exactly the habits that are pending or share an id
   * with a pending one.
   */
  lemma PendingModalMatchesGate(habits: seq<DailyHabit>, today: int)
    ensures var r := PendingModalHabits(habits, PendingHabitIds(habits, today));
      && (r.Some? <==> PendingGate(habits, today).ShowPending?)
      && (forall h :: h in habits && IsPending(h, today) ==> r.Some? && h in r.value)
  {
    PendingEmptyIff(habits, today);
  }
}
