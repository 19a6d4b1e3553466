/**
 * The pure logic of src/App.tsx: the weekday predicates, the due check, the streak
 * rule, the daily reset transform, the pending-habit gate and the list operations.
 * "Now" is passed in as `today`, a day number (see module Calendar).
 */
module Rollover {
  import opened Types
  import opened Collections
  import opened ModalReducer
  import Calendar

  /** `checkHabitByDay(habit, weekDay)`: `includes`, some entry of the weekday list is that weekday. */
  function CheckHabitByDay(h: DailyHabit, weekDay: int): (r: bool)
    ensures r <==> exists i :: 0 <= i < |h.daysOfTheWeek| && h.daysOfTheWeek[i] == weekDay
  {
    weekDay in h.daysOfTheWeek
  }

  /** `checkIfItsTodaysHabit(habit)` on day `today`: a habit on all seven weekdays always is one. */
  function IsTodaysHabit(h: DailyHabit, today: int): (r: bool)
    ensures r <==> exists i :: 0 <= i < |h.daysOfTheWeek| && h.daysOfTheWeek[i] == Calendar.Weekday(today)
    ensures h.daysOfTheWeek == AllWeekdays ==> r
    ensures h.daysOfTheWeek == [] ==> !r
  {
    var w := Calendar.Weekday(today);
    assert AllWeekdays[w] == w;
    CheckHabitByDay(h, w)
  }

  /**
   * `checkIfItsYesterdaysHabit(habit)` on day `today`: the habit is scheduled on the weekday
   * before today's, Saturday when today is Sunday.
   */
  function IsYesterdaysHabit(h: DailyHabit, today: int): (r: bool)
    ensures r <==> CheckHabitByDay(h, (Calendar.Weekday(today) + 6) % 7)
    ensures r <==> IsTodaysHabit(h, today - 1)
  {
    Calendar.YesterdayWeekday(today);
    CheckHabitByDay(h, Calendar.Weekday(today - 1))
  }

  /** A pending habit (src/App.tsx:79): scheduled on the weekday before today's and not marked done. */
  function IsPending(h: DailyHabit, today: int): (r: bool)
    ensures r ==> !h.done
    ensures r <==> !h.done && CheckHabitByDay(h, (Calendar.Weekday(today) + 6) % 7)
  {
    IsYesterdaysHabit(h, today) && !h.done
  }

  /**
   * `getHasResetToday(lastReset)`: both dates are midnight-normalised, so they are day
   * numbers here. The reset counts as done exactly when today is not after the watermark,
   * so a watermark of today never makes it due.
   */
  function HasResetToday(today: int, lastReset: int): (r: bool)
    ensures r <==> today <= lastReset
    ensures today == lastReset ==> r
  {
    !(today > lastReset)
  }

  /** `checkDailyHabitStreak(habit)`: a pending habit loses its streak, every other habit keeps it. */
  function CheckDailyHabitStreak(h: DailyHabit, today: int): (s: int)
    ensures s == 0 || s == h.streak
    ensures IsPending(h, today) ==> s == 0
    ensures !IsPending(h, today) ==> s == h.streak
  {
    if IsYesterdaysHabit(h, today) then
      if h.done then h.streak else 0
    else
      h.streak
  }

  /**
   * The transform `resetDailyHabits` applies to one habit: it is unchecked, keeps its id,
   * title and weekdays, and loses its streak exactly when it is pending.
   */
  function RolloverHabit(h: DailyHabit, today: int): (r: DailyHabit)
    ensures !r.done
    ensures r.id == h.id && r.title == h.title && r.daysOfTheWeek == h.daysOfTheWeek
    ensures IsPending(h, today) ==> r.streak == 0
    ensures !IsPending(h, today) ==> r.streak == h.streak
  {
    h.(done := false, streak := CheckDailyHabitStreak(h, today))
  }

  function RolloverOn(today: int): DailyHabit -> DailyHabit {
    h => RolloverHabit(h, today)
  }

  /** The list `resetDailyHabits` installs: `prevHabits.map(...)`. */
  function ResetDailyHabits(habits: seq<DailyHabit>, today: int): (r: seq<DailyHabit>)
    ensures |r| == |habits|
    ensures forall i :: 0 <= i < |habits| ==> r[i] == RolloverHabit(habits[i], today)
  {
    Map(habits, RolloverOn(today))
  }

  /** After the reset nothing is done, and the list keeps its length, order, ids, titles and weekdays. */
  lemma ResetClearsDoneKeepsIdentity(habits: seq<DailyHabit>, today: int)
    ensures var r := ResetDailyHabits(habits, today);
      && |r| == |habits|
      && forall i :: 0 <= i < |r| ==>
           && !r[i].done
           && r[i].id == habits[i].id
           && r[i].title == habits[i].title
           && r[i].daysOfTheWeek == habits[i].daysOfTheWeek
  {
  }

  /**
   * The streak rule of the reset: a pending habit drops to 0, every other habit keeps its
   * streak, and no streak ever grows.
   */
  lemma ResetStreakRule(habits: seq<DailyHabit>, today: int)
    ensures var r := ResetDailyHabits(habits, today);
      forall i :: 0 <= i < |r| ==>
        && (IsPending(habits[i], today) ==> r[i].streak == 0)
        && (!IsPending(habits[i], today) ==> r[i].streak == habits[i].streak)
        && (habits[i].streak >= 0 ==> 0 <= r[i].streak <= habits[i].streak)
  {
  }

  /**
   * Resetting twice for the same day is not a no-op: the first reset clears `done`, so the
   * second one breaks the streak of every habit scheduled yesterday.
   */
  lemma ResetTwiceBreaksYesterdaysStreaks(habits: seq<DailyHabit>, today: int)
    ensures var r2 := ResetDailyHabits(ResetDailyHabits(habits, today), today);
      forall i :: 0 <= i < |habits| ==>
        && (IsYesterdaysHabit(habits[i], today) ==> r2[i].streak == 0)
        && (!IsYesterdaysHabit(habits[i], today) ==> r2[i].streak == habits[i].streak)
  {
    var r1 := ResetDailyHabits(habits, today);
    assert forall i :: 0 <= i < |habits| ==> r1[i].daysOfTheWeek == habits[i].daysOfTheWeek && !r1[i].done;
  }

  function PendingOn(today: int): DailyHabit -> bool {
    h => IsPending(h, today)
  }

  function HabitId(h: DailyHabit): string {
    h.id
  }

  /** `habitsList.filter(habit => checkIfItsYesterdaysHabit(habit) && !habit.done).map(habit => habit.id)` */
  function PendingHabitIds(habits: seq<DailyHabit>, today: int): (ids: seq<string>)
    ensures |ids| <= |habits|
    ensures forall id :: id in ids <==> exists h :: h in habits && IsPending(h, today) && h.id == id
  {
    var pending := Filter(habits, PendingOn(today));
    forall id
      ensures id in Map(pending, HabitId) <==> exists h :: h in habits && IsPending(h, today) && h.id == id
    {
      MapMember(pending, HabitId, id);
      if exists h :: h in habits && IsPending(h, today) && h.id == id {
        var h :| h in habits && IsPending(h, today) && h.id == id;
        assert PendingOn(today)(h);
        var i :| 0 <= i < |pending| && pending[i] == h;
        assert HabitId(pending[i]) == id;
      }
      if id in Map(pending, HabitId) {
        var i :| 0 <= i < |pending| && HabitId(pending[i]) == id;
        assert pending[i] in pending;
        assert PendingOn(today)(pending[i]);
        assert pending[i] in habits && IsPending(pending[i], today) && pending[i].id == id;
      }
    }
    Map(pending, HabitId)
  }

  /** The pending list is empty exactly when no habit in the list is pending. */
  lemma {:induction false} PendingEmptyIff(habits: seq<DailyHabit>, today: int)
    ensures PendingHabitIds(habits, today) == [] <==> forall h :: h in habits ==> !IsPending(h, today)
  {
    var ids := PendingHabitIds(habits, today);
    if ids != [] {
      assert ids[0] in ids;
    }
    if h :| h in habits && IsPending(h, today) {
      assert h.id in ids;
    }
  }

  /** What the pending gate decides: open the new-day modal on these ids, or reset at once. */
  datatype GateOutcome = ShowPending(ids: seq<string>) | ResetNow

  /** The gate of src/App.tsx:37-43 and 79-85: non-empty pending list opens the modal, otherwise reset. */
  function PendingGate(habits: seq<DailyHabit>, today: int): (g: GateOutcome)
    ensures g.ResetNow? <==> forall h :: h in habits ==> !IsPending(h, today)
    ensures g.ShowPending? ==> g.ids == PendingHabitIds(habits, today) && g.ids != []
  {
    PendingEmptyIff(habits, today);
    var pending := PendingHabitIds(habits, today);
    if |pending| > 0 then ShowPending(pending) else ResetNow
  }

  /**
   * The gate's purpose: when it resets at once, the reset breaks no streak; every streak
   * it would break belongs to a habit the modal would have shown.
   */
  lemma {:induction false} GateProtectsStreaks(habits: seq<DailyHabit>, today: int)
    ensures PendingGate(habits, today).ResetNow? ==>
      forall i :: 0 <= i < |habits| ==> ResetDailyHabits(habits, today)[i].streak == habits[i].streak
    ensures forall i :: 0 <= i < |habits| && ResetDailyHabits(habits, today)[i].streak != habits[i].streak ==>
      habits[i].id in PendingHabitIds(habits, today)
  {
    var r := ResetDailyHabits(habits, today);
    forall i | 0 <= i < |habits| && r[i].streak != habits[i].streak
      ensures habits[i].id in PendingHabitIds(habits, today)
    {
      assert habits[i] in habits;
    }
    if PendingGate(habits, today).ResetNow? {
      forall i | 0 <= i < |habits|
        ensures r[i].streak == habits[i].streak
      {
        assert habits[i] in habits;
      }
    }
  }

  /**
   * As written, the midnight callback runs the gate on the list captured when the timer was
   * first set up, the initial empty list: the gate then always resets at once, and a habit
   * left unfinished yesterday loses its streak without the new-day modal being shown.
   */
  lemma MidnightGateOnMountedListLosesStreak(today: int)
    ensures var h := DailyHabit("read", "read", false, 5, AllWeekdays);
      && PendingGate([], today) == ResetNow
      && PendingGate([h], today) == ShowPending(["read"])
      && ResetDailyHabits([h], today)[0].streak == 0
  {
    var h := DailyHabit("read", "read", false, 5, AllWeekdays);
    EveryWeekdayScheduled(h, today - 1);
    assert IsPending(h, today);
    assert h in [h];
    assert PendingHabitIds([h], today) == ["read"] by {
      var ids := PendingHabitIds([h], today);
      assert |ids| <= 1 && "read" in ids;
    }
  }

  /** The field `updateHabit(id, key, value)` sets, with its value. */
  datatype FieldUpdate =
    | SetId(newId: string)
    | SetTitle(newTitle: string)
    | SetDone(newDone: bool)
    | SetStreak(newStreak: int)
    | SetDaysOfTheWeek(newDays: seq<int>)
  {
    function Key(): string {
      match this
      case SetId(_) => "id"
      case SetTitle(_) => "title"
      case SetDone(_) => "done"
      case SetStreak(_) => "streak"
      case SetDaysOfTheWeek(_) => "daysOfTheWeek"
    }

    function Value(): JsValue {
      match this
      case SetId(v) => Str(v)
      case SetTitle(v) => Str(v)
      case SetDone(v) => Bool(v)
      case SetStreak(v) => Num(v)
      case SetDaysOfTheWeek(v) => Days(v)
    }
  }

  /** `{ ...habit, [key]: value }` on a typed habit: the object view changes in that one property. */
  function ApplyUpdate(h: DailyHabit, u: FieldUpdate): (r: DailyHabit)
    ensures ToObject(r) == ToObject(h)[u.Key() := u.Value()]
  {
    match u
    case SetId(v) => h.(id := v)
    case SetTitle(v) => h.(title := v)
    case SetDone(v) => h.(done := v)
    case SetStreak(v) => h.(streak := v)
    case SetDaysOfTheWeek(v) => h.(daysOfTheWeek := v)
  }

  function UpdateOn(id: string, u: FieldUpdate): DailyHabit -> DailyHabit {
    (h: DailyHabit) => if h.id == id then ApplyUpdate(h, u) else h
  }

  /** `updateHabit(id, key, value)`: only habits with that id change, and only in that field. */
  function UpdateHabit(habits: seq<DailyHabit>, id: string, u: FieldUpdate): (r: seq<DailyHabit>)
    ensures |r| == |habits|
    ensures forall i :: 0 <= i < |habits| && habits[i].id != id ==> r[i] == habits[i]
    ensures forall i :: 0 <= i < |habits| && habits[i].id == id ==>
      ToObject(r[i]) == ToObject(habits[i])[u.Key() := u.Value()]
  {
    Map(habits, UpdateOn(id, u))
  }

  function OtherThan(id: string): DailyHabit -> bool {
    (h: DailyHabit) => h.id != id
  }

  function WithId(id: string): DailyHabit -> bool {
    (h: DailyHabit) => h.id == id
  }

  /** `deleteHabit(id)`: `prevValue.filter(habit => habit.id !== id)`. */
  function DeleteHabit(habits: seq<DailyHabit>, id: string): (r: seq<DailyHabit>)
    ensures forall h :: h in r <==> h in habits && h.id != id
  {
    Filter(habits, OtherThan(id))
  }

  /**
   * Deleting removes exactly the habits with that id: the rest keep their relative order
   * (deleting distributes over concatenation), and the length drops by the number removed.
   */
  lemma DeleteHabitRemovesExactly(a: seq<DailyHabit>, b: seq<DailyHabit>, id: string)
    ensures DeleteHabit(a + b, id) == DeleteHabit(a, id) + DeleteHabit(b, id)
    ensures |DeleteHabit(a, id)| == |a| - |Filter(a, WithId(id))|
    ensures (forall h :: h in a ==> h.id != id) ==> DeleteHabit(a, id) == a
  {
    FilterAppend(a, b, OtherThan(id));
    FilterPartition(a, OtherThan(id), WithId(id));
    if forall h :: h in a ==> h.id != id {
      FilterKeepsAll(a, OtherThan(id));
    }
  }

  function ScheduledOn(weekDay: int): DailyHabit -> bool {
    h => CheckHabitByDay(h, weekDay)
  }

  /** `habitsListFiltered`: filter 1 keeps today's habits; 0, null and any other value keep all. */
  function HabitsListFiltered(habits: seq<DailyHabit>, filter: Option<int>, today: int): (r: seq<DailyHabit>)
    ensures filter != Some(1) ==> r == habits
    ensures filter == Some(1) ==> forall h :: h in r <==> h in habits && IsTodaysHabit(h, today)
  {
    if filter == Some(0) then habits
    else if filter == Some(1) then Filter(habits, ScheduledOn(Calendar.Weekday(today)))
    else habits
  }

  /** The filtered list keeps the order of the full list: filtering distributes over concatenation. */
  lemma HabitsListFilteredKeepsOrder(a: seq<DailyHabit>, b: seq<DailyHabit>, filter: Option<int>, today: int)
    ensures HabitsListFiltered(a + b, filter, today) == HabitsListFiltered(a, filter, today) + HabitsListFiltered(b, filter, today)
  {
    FilterAppend(a, b, ScheduledOn(Calendar.Weekday(today)));
  }

  /** `[0, 1, 2, 3, 4, 5, 6]` */
  const AllWeekdays: seq<int> := [0, 1, 2, 3, 4, 5, 6]

  /** A habit on all seven weekdays is scheduled on every day. */
  lemma EveryWeekdayScheduled(h: DailyHabit, day: int)
    requires h.daysOfTheWeek == AllWeekdays
    ensures CheckHabitByDay(h, Calendar.Weekday(day))
  {
    var w := Calendar.Weekday(day);
    assert AllWeekdays[w] == w;
  }

  /**
   * The habit `createNewHabit(title)` builds, with the generated id passed in: not done,
   * no streak, scheduled on every weekday.
   */
  function NewHabit(id: string, title: string): (r: DailyHabit)
    ensures r.id == id && r.title == title && !r.done && r.streak == 0
    ensures forall w :: 0 <= w < 7 ==> CheckHabitByDay(r, w)
  {
    DailyHabit(id, title, false, 0, AllWeekdays)
  }

  /** A new habit is not done, has no streak, is scheduled on every day and round-trips through its object. */
  lemma NewHabitDefaults(id: string, title: string, day: int)
    ensures var h := NewHabit(id, title);
      && !h.done && h.streak == 0 && h.id == id && h.title == title
      && IsTodaysHabit(h, day) && IsYesterdaysHabit(h, day)
      && FromObject(ToObject(h)) == Some(h)
  {
    EveryWeekdayScheduled(NewHabit(id, title), day);
    EveryWeekdayScheduled(NewHabit(id, title), day - 1);
  }

  function IdIn(ids: seq<string>): DailyHabit -> bool {
    (h: DailyHabit) => h.id in ids
  }

  /** The habits the App's new-day modal lists: shown while the modal is `newDay` with a pending list. */
  function NewDayModalHabits(habits: seq<DailyHabit>, state: ModalState): (r: Option<seq<DailyHabit>>)
    ensures r.Some? <==> state.kind == Some(NewDayModal) && PendingOf(state).Some?
    ensures r.Some? ==> forall h :: h in r.value <==> h in habits && h.id in PendingOf(state).value
  {
    if state.kind == Some(NewDayModal) && PendingOf(state).Some? then
      Some(Filter(habits, IdIn(PendingOf(state).value)))
    else
      None
  }
}
