/**
 * src/sections/incrementalHabitSection.tsx: the defaults and the validation of a new
 * incremental habit. The validation toast is dropped.
 */
module IncrementalHabitSection {
  import opened Types

  /** `createDefaultHabit(id, title)`: weekly reset and both counts at zero. */
  function CreateDefaultHabit(id: string, title: string): (h: IncrementalHabit)
    ensures h.id == id && h.title == title
    ensures h.resetFrequency == Some(Weekly)
    ensures h.positiveCount == 0 && h.negativeCount == 0
  {
    IncrementalHabit(id, title, Some(Weekly), 0, 0)
  }

  /** `validateHabit(habit)`: the title is checked first, then the reset frequency. */
  function ValidateHabit(h: IncrementalHabit): (v: Validation)
    ensures v == Accepted <==> h.title != "" && h.resetFrequency.Some?
    ensures h.title == "" ==> v == Rejected("title")
    ensures h.title != "" && h.resetFrequency.None? ==> v == Rejected("reset frequency")
  {
    if h.title == "" then Rejected("title")
    else if h.resetFrequency.None? then Rejected("reset frequency")
    else Accepted
  }

  /** A default habit is rejected only for a missing title. */
  lemma DefaultHabitValidates(id: string, title: string)
    ensures ValidateHabit(CreateDefaultHabit(id, title)) == Accepted <==> title != ""
  {
  }
}
