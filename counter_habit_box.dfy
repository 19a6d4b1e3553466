/**
 * src/components/boxes/counterhabitbox/index.tsx: the total and the rounded share of
 * positive counts the box shows, and its two count buttons. `Math.round` of the
 * floating-point quotient is modelled as exact rounding half up on integers.
 */
module CounterHabitBox {
  import opened Types

  /** `total`: what was counted for, less what was counted against. */
  function Total(h: CounterHabit): (t: int)
    ensures t + h.negativeCount == h.positiveCount
  {
    h.positiveCount - h.negativeCount
  }

  /**
   * `percentage`: `Math.round(p / (p + n) * 100)` when `p + n > 0`, else 0. Rounding half up
   * of `100p / s` is `floor((200p + s) / 2s)`; the result is the integer nearest to the
   * exact share, a half rounding up.
   */
  function Percentage(h: CounterHabit): (pct: int)
    ensures h.positiveCount + h.negativeCount <= 0 ==> pct == 0
    ensures var s := h.positiveCount + h.negativeCount;
      s > 0 ==> 2 * s * pct - s <= 200 * h.positiveCount < 2 * s * pct + s
  {
    var s := h.positiveCount + h.negativeCount;
    if s > 0 then
      var q := (200 * h.positiveCount + s) / (2 * s);
      assert 2 * s * q <= 200 * h.positiveCount + s < 2 * s * q + 2 * s;
      q
    else 0
  }

  /** Multiplying by a non-negative factor keeps an inequality. */
  lemma MulLe(a: int, b: int, c: int)
    requires a >= 0 && b <= c
    ensures a * b <= a * c
  {
    assert a * c - a * b == a * (c - b);
  }

  /** For counts that are not negative, the share lies between 0 and 100. */
  lemma {:induction false} PercentageBounds(h: CounterHabit)
    requires h.positiveCount >= 0 && h.negativeCount >= 0
    ensures 0 <= Percentage(h) <= 100
  {
    var s := h.positiveCount + h.negativeCount;
    var pct := Percentage(h);
    if s > 0 {
      if pct < 0 {
        MulLe(2 * s, pct, -1);
      }
      if pct > 100 {
        MulLe(2 * s, 101, pct);
      }
    }
  }

  /** Only positive counts give 100; no positive count gives 0; equal counts give 50. */
  lemma {:induction false} PercentageExtremes(h: CounterHabit)
    requires h.positiveCount >= 0 && h.negativeCount >= 0
    ensures h.negativeCount == 0 && h.positiveCount > 0 ==> Percentage(h) == 100
    ensures h.positiveCount == 0 ==> Percentage(h) == 0
    ensures h.positiveCount == h.negativeCount ==> Percentage(h) == (if h.positiveCount == 0 then 0 else 50)
  {
    var s := h.positiveCount + h.negativeCount;
    var pct := Percentage(h);
    PercentageBounds(h);
    if s > 0 {
      if h.negativeCount == 0 && pct < 100 {
        MulLe(2 * s, pct, 99);
      }
      if h.positiveCount == 0 && pct > 0 {
        MulLe(2 * s, 1, pct);
      }
      if h.positiveCount == h.negativeCount {
        if pct < 50 {
          MulLe(2 * s, pct, 49);
        }
        if pct > 50 {
          MulLe(2 * s, 51, pct);
        }
      }
    }
  }

  /** The + button: one more positive count; everything else stays. */
  function Plus(h: CounterHabit): (r: CounterHabit)
    ensures r.positiveCount == h.positiveCount + 1 && r.negativeCount == h.negativeCount
    ensures r.id == h.id && r.title == h.title
    ensures Total(r) == Total(h) + 1
  {
    h.(positiveCount := h.positiveCount + 1)
  }

  /** The − button: one more negative count; everything else stays. */
  function Minus(h: CounterHabit): (r: CounterHabit)
    ensures r.negativeCount == h.negativeCount + 1 && r.positiveCount == h.positiveCount
    ensures r.id == h.id && r.title == h.title
    ensures Total(r) == Total(h) - 1
  {
    h.(negativeCount := h.negativeCount + 1)
  }

  /** Rounding half up is monotone: a share that grew from p/s to (p+1)/(s+1) does not round lower. */
  lemma {:induction false} RoundedShareGrows(p: int, s: int, q: int, up: int)
    requires 0 <= p <= s && 0 < s && q <= 100
    requires 2 * s * q - s <= 200 * p
    requires 200 * (p + 1) < 2 * (s + 1) * up + (s + 1)
    ensures q <= up
  {
    if up < q {
      MulLe(2 * (s + 1), up, q - 1);
    }
  }

  /** Rounding half up is monotone: a share that shrank from p/s to p/(s+1) does not round higher. */
  lemma {:induction false} RoundedShareShrinks(p: int, s: int, q: int, down: int)
    requires 0 <= p && 0 < s && 0 <= q
    requires 200 * p < 2 * s * q + s
    requires 2 * (s + 1) * down - (s + 1) <= 200 * p
    ensures down <= q
  {
    if down > q {
      MulLe(2 * (s + 1), q + 1, down);
    }
  }

  /** Pressing + never lowers the share, and pressing − never raises it. */
  lemma {:induction false} ButtonsMoveShare(h: CounterHabit)
    requires h.positiveCount >= 0 && h.negativeCount >= 0
    ensures Percentage(Plus(h)) >= Percentage(h)
    ensures Percentage(Minus(h)) <= Percentage(h)
  {
    var p, s := h.positiveCount, h.positiveCount + h.negativeCount;
    PercentageBounds(h);
    PercentageBounds(Plus(h));
    PercentageBounds(Minus(h));
    if s > 0 {
      RoundedShareGrows(p, s, Percentage(h), Percentage(Plus(h)));
      RoundedShareShrinks(p, s, Percentage(h), Percentage(Minus(h)));
    }
  }
}
