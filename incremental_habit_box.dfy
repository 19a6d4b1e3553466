/**
 * src/components/boxes/incrementalhabitbox/index.tsx: the two count buttons, each
 * raising one count by one through `updateHabit`, and the signed total the box shows.
 * The toasts are dropped.
 */
module IncrementalHabitBox {
  import opened Types
  import opened Numerals

  /** `total`: what was counted for, less what was counted against. */
  function Total(h: IncrementalHabit): (t: int)
    ensures t + h.negativeCount == h.positiveCount
  {
    h.positiveCount - h.negativeCount
  }

  /** `increaseHabitCount()`: one more positive count; everything else stays. */
  function IncreaseHabitCount(h: IncrementalHabit): (r: IncrementalHabit)
    ensures r.positiveCount == h.positiveCount + 1 && r.negativeCount == h.negativeCount
    ensures r.id == h.id && r.title == h.title && r.resetFrequency == h.resetFrequency
    ensures Total(r) == Total(h) + 1
  {
    h.(positiveCount := h.positiveCount + 1)
  }

  /** `decreaseHabitCount()`: one more negative count; it raises a count, it never lowers one. */
  function DecreaseHabitCount(h: IncrementalHabit): (r: IncrementalHabit)
    ensures r.negativeCount == h.negativeCount + 1 && r.positiveCount == h.positiveCount
    ensures r.id == h.id && r.title == h.title && r.resetFrequency == h.resetFrequency
    ensures Total(r) == Total(h) - 1
  {
    h.(negativeCount := h.negativeCount + 1)
  }

  /** One press of each button, in either order, leaves the total where it was. */
  lemma IncreaseDecreaseCommute(h: IncrementalHabit)
    ensures IncreaseHabitCount(DecreaseHabitCount(h)) == DecreaseHabitCount(IncreaseHabitCount(h))
    ensures Total(IncreaseHabitCount(DecreaseHabitCount(h))) == Total(h)
  {
  }

  /** `{total >= 0 ? '+' : ''}{total}`: the total, with a plus sign unless it is negative. */
  function TotalLabel(total: int): (s: string)
    ensures |s| > 1
    ensures s[0] == '+' <==> total >= 0
    ensures s[0] == '-' <==> total < 0
    ensures AllDigits(s[1..]) && ValueOf(s[1..]) == if total >= 0 then total else -total
  {
    if total >= 0 then
      assert ("+" + NumberToString(total))[1..] == NumberToString(total);
      "+" + NumberToString(total)
    else
      NumberToString(total)
  }
}
