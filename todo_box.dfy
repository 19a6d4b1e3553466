/**
 * src/components/boxes/todobox/index.tsx: whether a todo's due date has passed, and
 * the check/uncheck toggle, which writes one new `doneDate` through `updateHabit`.
 * "Now" is a parameter; the toast on checking is dropped.
 */
module TodoBox {
  import opened Types
  import opened Calendar
  import TodoSection

  /**
   * `isDueDateExpired(dueDate)` at time `now`: today's midnight is strictly after the due
   * date, so a due date has expired exactly when it lies on an earlier day than now.
   */
  function IsDueDateExpired(now: int, dueDate: int): (r: bool)
    ensures r <==> DayOf(dueDate) < DayOf(now)
    ensures DayOf(dueDate) == DayOf(now) ==> !r
  {
    BeforeMidnightIffEarlierDay(dueDate, now);
    Midnight(now) > dueDate
  }

  /** The `doneDate` that `onCheck` writes: cleared on a completed todo, today's midnight on an active one. */
  function OnCheck(todo: Todo, now: int): (d: Option<int>)
    ensures todo.doneDate.Some? ==> d.None?
    ensures todo.doneDate.None? ==> d.Some? && d.value % DayMs == 0 && DayOf(d.value) == DayOf(now)
  {
    if todo.doneDate.Some? then None else Some(Midnight(now))
  }

  /** The todo after `onCheck` and the `updateHabit` it triggers. */
  function Checked(todo: Todo, now: int): (r: Todo)
    ensures r.id == todo.id && r.title == todo.title && r.dueDate == todo.dueDate
    ensures forall b :: TodoSection.CheckIfItsDone(r, b) <==> !TodoSection.CheckIfItsDone(todo, b)
  {
    todo.(doneDate := OnCheck(todo, now))
  }

  /** Checking an active todo and checking it again gives back the active todo. */
  lemma CheckTwiceRestoresActive(todo: Todo, now: int, later: int)
    requires todo.doneDate.None?
    ensures Checked(Checked(todo, now), later) == todo
  {
  }

  /** Unchecking a completed todo and checking it again dates its completion to the later day. */
  lemma UncheckThenCheckRedates(todo: Todo, now: int, later: int)
    requires todo.doneDate.Some?
    ensures Checked(Checked(todo, now), later) == todo.(doneDate := Some(Midnight(later)))
  {
  }
}
