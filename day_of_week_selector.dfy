/**
 * The weekday toggles of src/components/dayOfWeekSelector/index.tsx and
 * src/components/day-of-week-selector/index.tsx. Both apply the same updater to the
 * previous list of selected weekdays: remove the day if present, append it if absent.
 * The second reads the day from the clicked element's `data-id`, the decimal digits of
 * the day's index.
 */
module DayOfWeekSelector {
  import opened Collections
  import opened Numerals

  function Differs(id: int): int -> bool {
    (d: int) => d != id
  }

  /** The `setSelectedDay` updater of `selectDay(id)`. */
  function SelectDay(prev: seq<int>, id: int): (r: seq<int>)
    ensures id in r <==> id !in prev
    ensures forall d :: d != id ==> (d in r <==> d in prev)
  {
    if id in prev then Filter(prev, Differs(id)) else prev + [id]
  }

  /** Removing a day drops every occurrence of it and nothing else. */
  lemma {:induction false} FilterDiffersMultiset(s: seq<int>, id: int)
    ensures multiset(Filter(s, Differs(id))) == multiset(s)[id := 0]
    ensures |Filter(s, Differs(id))| == |s| - multiset(s)[id]
    decreases |s|
  {
    if s != [] {
      FilterDiffersMultiset(s[1..], id);
      assert s == [s[0]] + s[1..];
      assert multiset(s) == multiset{s[0]} + multiset(s[1..]);
    }
  }

  /** Selecting a present day removes every occurrence of it and keeps every other entry. */
  lemma SelectPresentRemovesAll(prev: seq<int>, id: int)
    requires id in prev
    ensures multiset(SelectDay(prev, id)) == multiset(prev)[id := 0]
    ensures |SelectDay(prev, id)| == |prev| - multiset(prev)[id]
  {
    FilterDiffersMultiset(prev, id);
  }

  /** Selecting an absent day appends it after the days already selected. */
  lemma SelectAbsentAppends(prev: seq<int>, id: int)
    requires id !in prev
    ensures |SelectDay(prev, id)| == |prev| + 1
    ensures SelectDay(prev, id)[..|prev|] == prev && SelectDay(prev, id)[|prev|] == id
  {
  }

  /** The other days keep their relative order: the list without `id` is the same before and after. */
  lemma {:induction false} SelectKeepsOthersInOrder(prev: seq<int>, id: int)
    ensures Filter(SelectDay(prev, id), Differs(id)) == Filter(prev, Differs(id))
  {
    if id in prev {
      FilterKeepsAll(Filter(prev, Differs(id)), Differs(id));
    } else {
      FilterAppend(prev, [id], Differs(id));
      assert Filter([id], Differs(id)) == [] by {
        assert [id][1..] == [];
      }
    }
  }

  /** Selecting an absent day twice gives back the list as it was. */
  lemma {:induction false} SelectTwiceRestores(prev: seq<int>, id: int)
    requires id !in prev
    ensures SelectDay(SelectDay(prev, id), id) == prev
  {
    SelectKeepsOthersInOrder(prev, id);
    FilterKeepsAll(prev, Differs(id));
  }

  /**
   * `selectDay(event)` of the dataset-driven selector: the element of weekday `index`
   * carries `data-id` = the digits of `index`, and `Number` of it is the index again.
   */
  function SelectDayFromDataset(prev: seq<int>, index: nat): (r: seq<int>)
    ensures r == SelectDay(prev, index)
  {
    ValueOfDigitsOf(index);
    SelectDay(prev, ValueOf(DigitsOf(index)))
  }
}
