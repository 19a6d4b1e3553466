# Habit tracker: daily rollover, modal state machine and item transitions

A Dafny model of the logic inside a client-side habit tracker written in TypeScript
and React. The model covers:

- the **daily rollover** of `src/App.tsx`. A stored watermark older than today makes the
  daily reset due. The pending check then runs after every change of the habit list,
  until the first non-empty list passes its guard; after that it never runs again in the
  session. It collects the habits scheduled yesterday that were left unfinished. If there
  are any, it shows them in a "new day" modal and holds the reset back. Otherwise it resets
  at once: every habit is unchecked, and the streak of a missed habit drops to zero. So a
  session that opens on an empty list checks the first habit created in it, which counts
  as unfinished yesterday (`App.CreateOnStaleEmptyListScenario`). At midnight a timer
  callback makes the same decision (see "Findings").
- the **modal reducer** (`src/reducers/modalReducer.ts`), a closed state machine.
- the **defaults, validators and filters** of the section components.
- the **per-item transitions** of the todo, incremental and counter boxes.
- the **weekday toggle** of both day-of-week selectors.

Time is an integer. Timestamps count milliseconds and dates are day numbers counted
from 1970-01-01, a Thursday (module `Calendar`). "Now" is always a parameter.

A JavaScript object is a `map<string, JsValue>`, so the spread `{...a, ...b}` is the map
union `a + b`. The modal reducer works on that view of a habit. Typed habits are
Dafny datatypes, and `Types.ToObject` / `Types.FromObject` move between the two views.

| module | file | models |
|---|---|---|
| `Collections` | collections.dfy | `Array.prototype.filter` / `map` and their laws |
| `Types` | types.dfy | the habit records and their object view |
| `Calendar` | calendar.dfy | midnight, day numbers, weekdays |
| `Numerals` | numerals.dfy | printing and reading decimal integers |
| `ModalReducer` | modal_reducer.dfy | src/reducers/modalReducer.ts |
| `Rollover` | rollover.dfy | the pure functions of src/App.tsx |
| `App` | app.dfy | the state of src/App.tsx as a class `Session` |
| `DailyHabitSection` | daily_habit_section.dfy | src/sections/dailyHabitSection.tsx |
| `DailyHabitSectionWithModal` | daily_habit_section_with_modal.dfy | src/sections/daily-habit-section.tsx |
| `TodoSection` | todo_section.dfy | src/sections/todoSection.tsx |
| `IncrementalHabitSection` | incremental_habit_section.dfy | src/sections/incrementalHabitSection.tsx |
| `TodoBox` | todo_box.dfy | src/components/boxes/todobox/index.tsx |
| `IncrementalHabitBox` | incremental_habit_box.dfy | src/components/boxes/incrementalhabitbox/index.tsx |
| `CounterHabitBox` | counter_habit_box.dfy | src/components/boxes/counterhabitbox/index.tsx |
| `DayOfWeekSelector` | day_of_week_selector.dfy | both day-of-week selector components |

`App.Session` has these fields:

- `habits`, the habit list;
- `today` and `lastReset`, as day numbers;
- the two refs `hasResetToday` and `hasCheckedPendingHabits`;
- `modal`, the modal state. The pending-id list lives in the new-day modal's data, as in the application.

Its methods are the component's effects and handlers. They are specified by the pure
functions of `Rollover`, whose properties are proved as lemmas.

Three facts about the reset shape the model:

- A reset never increments a streak; it only keeps or zeroes it (`Rollover.ResetStreakRule`).
- A second reset for the same day is not a no-op. The first clears `done`, so the second
  zeroes the streak of every habit scheduled yesterday (`Rollover.ResetTwiceBreaksYesterdaysStreaks`).
- Weekly resets, counter zeroing and a 7-day todo purge are not in the code. Only the
  label at src/sections/todoSection.tsx:90 mentions the purge.

## Model

| member | source | states |
|---|---|---|
| `Calendar.Midnight` | src/components/boxes/todobox/index.tsx:23-24 | midnight is the start of the day holding `t`: at most `t`, less than a day before it, a whole number of days |
| `Calendar.Weekday` | src/App.tsx:143-146 | `getDay()` of a day number is a weekday between 0 (Sunday) and 6 |
| `Calendar.WeekdayPeriodic` | src/App.tsx:143-146 | weekdays repeat every seven days |
| `Calendar.YesterdayWeekday` | src/App.tsx:148-153 | yesterday's weekday is today's minus one modulo 7, so Sunday is preceded by Saturday |
| `Types.ToObject` | src/App.tsx:160-166 | a daily habit's object has exactly the five properties id, title, done, streak, daysOfTheWeek |
| `Types.FromObject` | src/types/types.ts:2-13 | an object reads back as a habit only if it carries the five properties, and then agrees with it on each |
| `Types.FromObjectToObject` | src/App.tsx:160-166 | reading back the object of a habit gives the habit |
| `Types.FromObjectIgnoresExtraKeys` | src/sections/daily-habit-section.tsx:56-63 | extra properties, such as a `type` tag, do not stop an object from reading back |
| `ModalReducer.Reduce` | src/reducers/modalReducer.ts:4-55 | an unrecognised action returns the state; a pending list is present exactly after `showNewDay`; the modal is closed exactly after `hideModal`, or on an unrecognised action on a closed modal |
| `ModalReducer.ShowNewDayFromAnyState` | src/reducers/modalReducer.ts:6-10 | from any state, `showNewDay` opens the new-day modal whose pending list is the payload |
| `ModalReducer.CreateHabitFromAnyState` | src/reducers/modalReducer.ts:12-16 | from any state, `createHabit` opens the create modal holding exactly the payload |
| `ModalReducer.UpdateMergesWhileEditing` | src/reducers/modalReducer.ts:19-34 | in a create or update modal holding a habit, `updateHabit` keeps the modal type; payload properties win, other properties are kept, no others appear |
| `ModalReducer.UpdateOutsideEditorStartsFromPayload` | src/reducers/modalReducer.ts:35-40 | from any other state, `updateHabit` opens the update modal holding only the payload |
| `ModalReducer.UpdateIdempotent` | src/reducers/modalReducer.ts:18-40 | the same `updateHabit` payload twice gives the same state as once |
| `ModalReducer.HideAndDelete` | src/reducers/modalReducer.ts:42-50 | `hideModal` yields the closed state without data; `deleteHabit` opens the delete modal on the payload |
| `Rollover.CheckHabitByDay` | src/App.tsx:155-157 | a habit is scheduled on a weekday exactly when some entry of its weekday list is that weekday |
| `Rollover.IsTodaysHabit` | src/App.tsx:143-146 | scheduled on today's weekday; always true for a habit on all seven weekdays, never for one on none |
| `Rollover.IsYesterdaysHabit` | src/App.tsx:148-153 | scheduled on the weekday before today's, Saturday before Sunday; the same as being the habit of the day before |
| `Rollover.IsPending` | src/App.tsx:79 | a pending habit is not done and is scheduled on the weekday before today's |
| `Rollover.HasResetToday` | src/App.tsx:128-132 | the reset counts as done exactly when today is not after the watermark; a watermark of today never makes it due |
| `Rollover.RolloverHabit` | src/App.tsx:117-124 | a rolled-over habit is not done, keeps id, title and weekdays, and loses its streak exactly when it was pending |
| `Rollover.ResetDailyHabits` | src/App.tsx:117-124 | the reset list has the same length, and each position holds the rollover of the habit at that position |
| `Rollover.CheckDailyHabitStreak` | src/App.tsx:134-141 | a habit scheduled yesterday and not done gets streak 0; every other habit keeps its streak |
| `Rollover.ResetClearsDoneKeepsIdentity` | src/App.tsx:114-126 | after the reset no habit is done; length, order, ids, titles and weekdays are kept |
| `Rollover.ResetStreakRule` | src/App.tsx:117-124 | a pending habit's streak becomes 0, every other streak is kept, and no streak grows |
| `Rollover.ResetTwiceBreaksYesterdaysStreaks` | src/App.tsx:114-126 | a second reset for the same day zeroes the streak of every habit scheduled yesterday and keeps the others |
| `Rollover.PendingHabitIds` | src/App.tsx:79-80 | an id is pending exactly when some habit with that id is scheduled yesterday and not done |
| `Rollover.PendingEmptyIff` | src/App.tsx:79-81 | the pending list is empty exactly when no habit is pending |
| `Rollover.PendingGate` | src/App.tsx:81-85 | the reset runs at once exactly when no habit is pending; otherwise the modal gets the non-empty pending list |
| `Rollover.GateProtectsStreaks` | src/App.tsx:77-86 | a reset the gate lets through keeps every streak; every streak a reset would change belongs to a pending id |
| `Rollover.MidnightGateOnMountedListLosesStreak` | src/App.tsx:36-45 | the gate on the first render's empty list resets at once, while on the current list it would hold back, and the reset zeroes the streak |
| `Rollover.ApplyUpdate` | src/App.tsx:181-185 | `{...habit, [key]: value}` changes the habit's object in that one property |
| `Rollover.UpdateHabit` | src/App.tsx:181-185 | the length is kept; habits with another id are unchanged; habits with the id change only in that property |
| `Rollover.DeleteHabit` | src/App.tsx:187-191 | a habit remains exactly when it was in the list and has another id |
| `Rollover.DeleteHabitRemovesExactly` | src/App.tsx:187-191 | deleting keeps the rest in order (it distributes over concatenation), removes exactly the matching habits, and keeps a list without the id |
| `Rollover.HabitsListFiltered` | src/App.tsx:100-104 | filter 1 keeps exactly today's habits; 0, null or any other value returns the whole list |
| `Rollover.HabitsListFilteredKeepsOrder` | src/App.tsx:100-104 | the filtered list keeps the order of the full list |
| `Rollover.EveryWeekdayScheduled` | src/App.tsx:165 | a habit on `[0..6]` is scheduled every day |
| `Rollover.NewHabitDefaults` | src/App.tsx:159-168 | a new habit is not done, has no streak, is scheduled today and yesterday, and reads back from its object |
| `Rollover.NewHabit` | src/App.tsx:160-166 | a new habit has the given id and title, is not done, has streak 0 and is scheduled on every weekday |
| `Rollover.NewDayModalHabits` | src/App.tsx:207-215 | the new-day modal shows exactly while it is open with a pending list, and lists exactly the habits whose id is pending |
| `App.Session.Load` | src/App.tsx:56-69 | a stored watermark decides `hasResetToday`; a missing one becomes today and leaves the ref true; the check flag starts false and the modal closed |
| `App.Session.ResetDailyHabits` | src/App.tsx:114-126 | the watermark becomes today, the modal closes, and the list becomes its rollover |
| `App.Session.CheckPendingHabits` | src/App.tsx:71-88 | runs only when the reset is due, on a non-empty list, not yet checked; then it sets the flag and either opens the new-day modal on the pending ids, changing nothing else, or resets |
| `App.Session.MidnightTick` | src/App.tsx:36-43 | corrected callback: gates on the current list, and no streak changes at midnight |
| `App.Session.MidnightTickAsWritten` | src/App.tsx:26-54 | the callback as written always resets, whatever is pending |
| `App.Session.UpdateHabit` | src/App.tsx:181-185 | the list becomes its update |
| `App.Session.DeleteHabit` | src/App.tsx:187-191 | the list loses the habits with the id |
| `App.Session.Dispatch` | src/App.tsx:224-235 | the modal takes one reducer step |
| `App.Session.CancelHabitCreation` | src/App.tsx:177-179 | the modal is closed and holds no habit |
| `App.Session.CreateNewHabit` | src/App.tsx:159-168 | the create modal opens on a habit that reads back as the new habit |
| `App.Session.FinishHabitCreation` | src/App.tsx:170-175 | in the create modal holding a habit, the habit is appended and the modal closed; otherwise nothing changes |
| `App.CreationFlowKeepsEdits` | src/App.tsx:216-236 | create, then edit title and weekdays: the modal habit reads back as the new habit with those edits |
| `DailyHabitSection.CreateDefaultHabit` | src/sections/dailyHabitSection.tsx:52-61 | the given id and title, not done, streak 0, exactly the weekdays 0 to 6 |
| `DailyHabitSection.ValidateHabit` | src/sections/dailyHabitSection.tsx:63-73 | accepted exactly when the title and the weekday list are non-empty; an empty title is reported first, then empty days |
| `DailyHabitSection.DefaultHabitValidates` | src/sections/dailyHabitSection.tsx:52-73 | a default habit is accepted exactly when its title is non-empty |
| `DailyHabitSection.TodayFilterShowsNewHabit` | src/sections/dailyHabitSection.tsx:41-50 | under filter 1 a newly created habit appears at the end of today's list |
| `DailyHabitSection.PendingModalHabits` | src/sections/dailyHabitSection.tsx:112-120 | the modal appears exactly when the pending list is non-empty, and lists exactly the habits whose id is pending |
| `DailyHabitSection.PendingModalKeepsOrder` | src/sections/dailyHabitSection.tsx:115 | the modal lists the habits in list order |
| `DailyHabitSection.PendingModalMatchesGate` | src/sections/dailyHabitSection.tsx:112-120 | fed the rollover's pending ids, the modal appears exactly when the reset is held back, and lists every pending habit |
| `DailyHabitSectionWithModal.CheckHabitByDay` | src/sections/daily-habit-section.tsx:50-53 | undefined without a weekday list; otherwise true exactly when the weekday is in it |
| `DailyHabitSectionWithModal.CheckHabitByDayAgrees` | src/sections/daily-habit-section.tsx:45-53 | with a weekday list, the check agrees with the application's |
| `DailyHabitSectionWithModal.CreateNewHabit` | src/sections/daily-habit-section.tsx:55-65 | tagged `daily`, and reads back as a new habit: not done, streak 0, every weekday |
| `DailyHabitSectionWithModal.HoldsDailyHabit` | src/sections/daily-habit-section.tsx:68 | the guard holds only in the create modal, an editing state, holding a habit tagged `daily`; never in another modal or without a habit |
| `DailyHabitSectionWithModal.FinishHabitCreation` | src/sections/daily-habit-section.tsx:67-72 | hands the habit over exactly when the create modal holds a habit tagged daily, then closes the modal; otherwise the state is kept |
| `DailyHabitSectionWithModal.CreateEditFinishAddsEditedHabit` | src/sections/daily-habit-section.tsx:105-126 | create, edit title and weekdays, save: the parent receives the edited habit and the modal closes |
| `DailyHabitSectionWithModal.FinishNeedsCreateModalAndTag` | src/sections/daily-habit-section.tsx:67-72 | nothing is handed over from the delete or update modal, or after the tag is changed |
| `TodoSection.CheckIfItsDone` | src/sections/todoSection.tsx:44-46 | with `true` (the default) it holds exactly for a todo with a done date; with `false` exactly for one without |
| `TodoSection.TodosFiltered` | src/sections/todoSection.tsx:38-42 | filter 0 keeps exactly the todos without a done date; filter 1 exactly those with one; any other value all |
| `TodoSection.ActiveAndCompletedPartition` | src/sections/todoSection.tsx:38-46 | the active and completed views together hold every todo exactly as often as the list |
| `TodoSection.TodosFilteredKeepsOrder` | src/sections/todoSection.tsx:38-42 | both views keep list order |
| `TodoSection.CreateDefaultHabit` | src/sections/todoSection.tsx:48-54 | the given id and title, no due date, and active rather than done |
| `TodoSection.NewTodoIsActive` | src/sections/todoSection.tsx:38-54 | a new todo appears at the end of the active view and not in the completed view |
| `TodoSection.ValidateHabit` | src/sections/todoSection.tsx:56-62 | accepted exactly when the title is non-empty; otherwise the title is reported |
| `IncrementalHabitSection.CreateDefaultHabit` | src/sections/incrementalHabitSection.tsx:25-34 | the given id and title, weekly reset, both counts 0 |
| `IncrementalHabitSection.ValidateHabit` | src/sections/incrementalHabitSection.tsx:36-46 | accepted exactly when the title is non-empty and a reset frequency is set; the title is reported first |
| `IncrementalHabitSection.DefaultHabitValidates` | src/sections/incrementalHabitSection.tsx:25-46 | a default habit is accepted exactly when its title is non-empty |
| `Calendar.BeforeMidnightIffEarlierDay` | src/components/boxes/todobox/index.tsx:23-25 | a time is before today's midnight exactly when it falls on an earlier day |
| `TodoBox.IsDueDateExpired` | src/components/boxes/todobox/index.tsx:22-26 | a due date has expired exactly when it lies on an earlier day than now; a due date today has not |
| `TodoBox.OnCheck` | src/components/boxes/todobox/index.tsx:48-57 | a completed todo's done date is cleared; an active todo's becomes midnight of today |
| `TodoBox.Checked` | src/components/boxes/todobox/index.tsx:48-57 | checking flips done/active and keeps id, title and due date |
| `TodoBox.CheckTwiceRestoresActive` | src/components/boxes/todobox/index.tsx:48-57 | checking an active todo twice gives back the todo |
| `TodoBox.UncheckThenCheckRedates` | src/components/boxes/todobox/index.tsx:48-57 | unchecking and checking again dates the completion to the later day |
| `IncrementalHabitBox.Total` | src/components/boxes/incrementalhabitbox/index.tsx:49 | total plus the negative count is the positive count |
| `IncrementalHabitBox.IncreaseHabitCount` | src/components/boxes/incrementalhabitbox/index.tsx:39-42 | the positive count goes up by one; every other field is kept; the total goes up by one |
| `IncrementalHabitBox.DecreaseHabitCount` | src/components/boxes/incrementalhabitbox/index.tsx:44-47 | the negative count goes up by one; every other field is kept; the total goes down by one |
| `IncrementalHabitBox.IncreaseDecreaseCommute` | src/components/boxes/incrementalhabitbox/index.tsx:39-47 | one press of each button, in either order, gives the same habit and the same total |
| `IncrementalHabitBox.TotalLabel` | src/components/boxes/incrementalhabitbox/index.tsx:107-108 | the label starts with '+' exactly when the total is not negative, '-' otherwise, followed by the digits of its magnitude |
| `Numerals.ValueOfDigitsOf` | src/components/day-of-week-selector/index.tsx:29 | `Number` of the digits of a natural number is the number |
| `Numerals.NumberToString` | src/components/boxes/incrementalhabitbox/index.tsx:108 | the text of an integer starts with '-' exactly when it is negative, and its digits read back as the magnitude |
| `CounterHabitBox.Total` | src/components/boxes/counterhabitbox/index.tsx:37 | total plus the negative count is the positive count |
| `CounterHabitBox.Percentage` | src/components/boxes/counterhabitbox/index.tsx:38-40 | 0 without counts; otherwise the integer nearest to 100·p/(p+n), a half rounding up |
| `CounterHabitBox.PercentageBounds` | src/components/boxes/counterhabitbox/index.tsx:38-40 | for counts that are not negative the percentage is between 0 and 100 |
| `CounterHabitBox.PercentageExtremes` | src/components/boxes/counterhabitbox/index.tsx:38-40 | 100 with only positive counts, 0 without positive counts, 50 with equal non-zero counts |
| `CounterHabitBox.Plus` | src/components/boxes/counterhabitbox/index.tsx:59 | only the positive count goes up by one; the total goes up by one |
| `CounterHabitBox.Minus` | src/components/boxes/counterhabitbox/index.tsx:68 | only the negative count goes up by one; the total goes down by one |
| `CounterHabitBox.ButtonsMoveShare` | src/components/boxes/counterhabitbox/index.tsx:57-72 | + never lowers the percentage and − never raises it |
| `DayOfWeekSelector.SelectDay` | src/components/dayOfWeekSelector/index.tsx:28-36 | membership of the selected day flips; every other day keeps its membership |
| `DayOfWeekSelector.SelectPresentRemovesAll` | src/components/dayOfWeekSelector/index.tsx:29-31 | selecting a present day removes every occurrence of it and keeps every other entry |
| `DayOfWeekSelector.SelectAbsentAppends` | src/components/dayOfWeekSelector/index.tsx:32-34 | selecting an absent day appends it after the others |
| `DayOfWeekSelector.SelectKeepsOthersInOrder` | src/components/dayOfWeekSelector/index.tsx:28-36 | the other days keep their relative order |
| `DayOfWeekSelector.SelectTwiceRestores` | src/components/dayOfWeekSelector/index.tsx:28-36 | selecting an absent day twice gives back the list; no duplicate-free assumption is needed |
| `DayOfWeekSelector.SelectDayFromDataset` | src/components/day-of-week-selector/index.tsx:28-37 | the dataset-driven selector applies the same toggle to the day its element is for |

## Left out

- The midnight timer's scheduling (`setTimeout`, `clearTimeout`, the delay to midnight) is left out. Only the decision the callback makes is modelled, as `App.Session.MidnightTick` / `MidnightTickAsWritten` called with the new day.
- Reading and writing local storage and the JSON encoding are left out. The stored list and watermark are arguments of `App.Session.Load`, and the watermark is a field.
- JavaScript `Date` is abstracted: every day is 86 400 000 ms long, in a single time zone. There is no daylight saving and no month-length arithmetic.
- The development-mode guard on `initialLoadRef` (src/App.tsx:73-75) is left out; the production behaviour is modelled. So is the persistence effect that skips the first render.
- The toasts inside `validateHabit`, `onCheck` and the count buttons are left out. A rejection names the field the toast would report.
- Drag-and-drop reordering, rendering and the presentational components are left out.
- `App.Session.FinishHabitCreation`: appends the modal habit only when it reads back as a daily habit. The application appends the object as it is, so an object missing a field is not modelled.
- `App.Session.UpdateHabit`: covers the five typed properties of a daily habit. An update under any other key, or with a value of the wrong kind, is not modelled.
- `CounterHabitBox.Percentage`: exact rational rounding half up is modelled. Floating-point division, and its rounding near a .5 boundary, is not.
- `TodoBox.Checked`: gives the new state of the one todo. The list update it goes through (`updateHabit` of the parent section) is not part of this model.
- `DayOfWeekSelector.SelectDayFromDataset`: `data-id` is assumed to hold the index the element renders. A non-numeric `data-id`, which would give `NaN`, is not modelled.
- The `useEffect` that reports the selection to `onChange`, in both selectors, is left out.
- Weekly resets, zeroing of the incremental counters, the 7-day todo purge and streak increments are not implemented in the code, so they are not modelled.

## Findings

| source | as written | input that shows it | evidently intended | confidence | as-written member | corrected member |
|---|---|---|---|---|---|---|
| src/App.tsx:36-45 | The midnight callback filters `habitsList`, but the timer effect has empty dependencies, so the callback sees the list of the first render, `[]`. The pending list is always empty, so the reset always runs at once. | Open the app with a habit on every weekday, streak 5, left undone, and keep it open past midnight. The gate on `[]` resets, the streak drops to 0, and no new-day modal is shown; the gate on the current list would have shown the modal. | Gate on the current list, as the load-time effect does, so that no streak is lost without confirmation. | not executed | `Rollover.MidnightGateOnMountedListLosesStreak` | `App.Session.MidnightTick` |
