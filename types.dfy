/**
 * The records of the habit tracker (src/types/habit.ts, src/types/types.ts) and the
 * untyped JavaScript object view of a habit that the modal reducer works on.
 *
 * A habit's `type` tag ('daily', 'incremental', 'todo') is the Dafny datatype it
 * belongs to. Dates are integer millisecond timestamps (see module Calendar).
 */
module Types {

  datatype Option<+T> = None | Some(value: T)

  /** The `resetFrequency` of an incremental habit. */
  datatype ResetFrequency = Daily | Weekly

  /** A recurring habit, scheduled on the weekdays listed in `daysOfTheWeek` (0 = Sunday). */
  datatype DailyHabit = DailyHabit(
    id: string,
    title: string,
    done: bool,
    streak: int,
    daysOfTheWeek: seq<int>)

  /** An open-ended counter; `resetFrequency` is optional in stored or edited data. */
  datatype IncrementalHabit = IncrementalHabit(
    id: string,
    title: string,
    resetFrequency: Option<ResetFrequency>,
    positiveCount: int,
    negativeCount: int)

  /** The counter habit shown by the counter box: two counts and no reset frequency. */
  datatype CounterHabit = CounterHabit(
    id: string,
    title: string,
    positiveCount: int,
    negativeCount: int)

  /** A one-off todo; `doneDate` is set while it is completed. */
  datatype Todo = Todo(
    id: string,
    title: string,
    doneDate: Option<int>,
    dueDate: Option<int>)

  /** Outcome of a section's `validateHabit`: accepted, or rejected naming the field the toast reports. */
  datatype Validation = Accepted | Rejected(field: string)

  /** The JavaScript values a habit's fields hold. `Undefined` is an explicitly undefined property. */
  datatype JsValue =
    | Str(s: string)
    | Num(n: int)
    | Bool(b: bool)
    | Days(days: seq<int>)
    | DateValue(time: int)
    | Undefined

  /** A plain JavaScript object: its own properties. Object spread `{...a, ...b}` is `a + b`. */
  type JsObject = map<string, JsValue>

  /** The object literal a daily habit is stored and passed around as. */
  function ToObject(h: DailyHabit): (o: JsObject)
    ensures o.Keys == {"id", "title", "done", "streak", "daysOfTheWeek"}
  {
    map[
      "id" := Str(h.id),
      "title" := Str(h.title),
      "done" := Bool(h.done),
      "streak" := Num(h.streak),
      "daysOfTheWeek" := Days(h.daysOfTheWeek)]
  }

  /**
   * Reads a daily habit back from an object, when the object carries every field of a
   * daily habit with a value of the right kind; other properties are ignored.
   */
  function FromObject(o: JsObject): (r: Option<DailyHabit>)
    ensures r.Some? ==> forall k :: k in ToObject(r.value) ==> k in o && o[k] == ToObject(r.value)[k]
  {
    if && "id" in o && o["id"].Str?
       && "title" in o && o["title"].Str?
       && "done" in o && o["done"].Bool?
       && "streak" in o && o["streak"].Num?
       && "daysOfTheWeek" in o && o["daysOfTheWeek"].Days?
    then Some(DailyHabit(o["id"].s, o["title"].s, o["done"].b, o["streak"].n, o["daysOfTheWeek"].days))
    else None
  }

  /** Reading back the object of a habit gives the habit. */
  lemma FromObjectToObject(h: DailyHabit)
    ensures FromObject(ToObject(h)) == Some(h)
  {
  }

  /** Extra properties (a `type` tag, an `order`) do not stop an object from reading back. */
  lemma FromObjectIgnoresExtraKeys(h: DailyHabit, extra: JsObject)
    requires extra.Keys !! ToObject(h).Keys
    ensures FromObject(extra + ToObject(h)) == Some(h)
    ensures FromObject(ToObject(h) + extra) == Some(h)
  {
  }
}
