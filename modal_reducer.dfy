/**
 * The modal state machine of src/reducers/modalReducer.ts with its types from
 * src/types/modal.ts: a state with an optional modal type and optional data, and
 * a total reducer over five action kinds plus any unrecognised action.
 */
module ModalReducer {
  import opened Types

  /** `ModalType` without `null`; the closed modal is `kind == None`. */
  datatype ModalType = NewDayModal | CreateHabitModal | UpdateHabitModal | DeleteHabitModal

  /** `data?: { pendingHabits?: string[], habit?: Habit }` */
  datatype ModalData = ModalData(pendingHabits: Option<seq<string>>, habit: Option<JsObject>)

  datatype ModalState = ModalState(kind: Option<ModalType>, data: Option<ModalData>)

  /** `ModalAction`; `Unrecognised` stands for any other action object reaching `default:`. */
  datatype ModalAction =
    | ShowNewDay(pending: seq<string>)
    | CreateHabit(habit: JsObject)
    | UpdateHabit(patch: JsObject)
    | DeleteHabit(patch: JsObject)
    | HideModal
    | Unrecognised(tag: string)

  /** `{ type: null }`, the initial state and the state after `hideModal`. */
  const Closed: ModalState := ModalState(None, None)

  /** `state.data?.habit` */
  function HabitOf(state: ModalState): Option<JsObject> {
    if state.data.Some? then state.data.value.habit else None
  }

  /** `state.data?.pendingHabits` */
  function PendingOf(state: ModalState): Option<seq<string>> {
    if state.data.Some? then state.data.value.pendingHabits else None
  }

  /** The states in which `updateHabit` edits the habit in place: a create or update modal holding a habit. */
  predicate IsEditing(state: ModalState) {
    (state.kind == Some(CreateHabitModal) || state.kind == Some(UpdateHabitModal)) && HabitOf(state).Some?
  }

  /** `modalReducer(state, action)` */
  function Reduce(state: ModalState, action: ModalAction): (r: ModalState)
    ensures action.Unrecognised? ==> r == state
    ensures !action.Unrecognised? ==> (PendingOf(r).Some? <==> action.ShowNewDay?)
    ensures r.kind.None? <==> action.HideModal? || (action.Unrecognised? && state.kind.None?)
  {
    match action
    case ShowNewDay(pending) =>
      ModalState(Some(NewDayModal), Some(ModalData(Some(pending), None)))
    case CreateHabit(habit) =>
      ModalState(Some(CreateHabitModal), Some(ModalData(None, Some(habit))))
    case UpdateHabit(patch) =>
      if IsEditing(state) then
        // {...state, data: { habit: {...state.data.habit, ...action.payload} }}
        ModalState(state.kind, Some(ModalData(None, Some(HabitOf(state).value + patch))))
      else
        ModalState(Some(UpdateHabitModal), Some(ModalData(None, Some(patch))))
    case DeleteHabit(patch) =>
      ModalState(Some(DeleteHabitModal), Some(ModalData(None, Some(patch))))
    case HideModal =>
      Closed
    case Unrecognised(_) =>
      state
  }

  /** `showNewDay` opens the new-day modal listing exactly the payload ids, whatever was open before. */
  lemma ShowNewDayFromAnyState(state: ModalState, ids: seq<string>)
    ensures Reduce(state, ShowNewDay(ids)).kind == Some(NewDayModal)
    ensures PendingOf(Reduce(state, ShowNewDay(ids))) == Some(ids)
    ensures HabitOf(Reduce(state, ShowNewDay(ids))) == None
  {
  }

  /** `createHabit` opens the create modal holding exactly the payload habit, whatever was open before. */
  lemma CreateHabitFromAnyState(state: ModalState, habit: JsObject)
    ensures Reduce(state, CreateHabit(habit)).kind == Some(CreateHabitModal)
    ensures HabitOf(Reduce(state, CreateHabit(habit))) == Some(habit)
    ensures PendingOf(Reduce(state, CreateHabit(habit))) == None
  {
  }

  /**
   * In a create or update modal, `updateHabit` keeps the modal type and merges the payload
   * into the habit: payload properties win, every other property of the habit is kept,
   * and no property appears that neither had.
   */
  lemma UpdateMergesWhileEditing(state: ModalState, patch: JsObject)
    requires IsEditing(state)
    ensures var r := Reduce(state, UpdateHabit(patch));
      && r.kind == state.kind
      && HabitOf(r).Some?
      && HabitOf(r).value.Keys == HabitOf(state).value.Keys + patch.Keys
      && (forall k :: k in patch ==> HabitOf(r).value[k] == patch[k])
      && (forall k :: k in HabitOf(state).value && k !in patch ==> HabitOf(r).value[k] == HabitOf(state).value[k])
  {
  }

  /** From any other state, `updateHabit` opens the update modal holding only the payload's properties. */
  lemma UpdateOutsideEditorStartsFromPayload(state: ModalState, patch: JsObject)
    requires !IsEditing(state)
    ensures Reduce(state, UpdateHabit(patch)).kind == Some(UpdateHabitModal)
    ensures HabitOf(Reduce(state, UpdateHabit(patch))) == Some(patch)
  {
  }

  /** Dispatching the same `updateHabit` payload twice gives the same state as dispatching it once. */
  lemma UpdateIdempotent(state: ModalState, patch: JsObject)
    ensures Reduce(Reduce(state, UpdateHabit(patch)), UpdateHabit(patch)) == Reduce(state, UpdateHabit(patch))
  {
    var once := Reduce(state, UpdateHabit(patch));
    assert IsEditing(once);
    if IsEditing(state) {
      var h := HabitOf(state).value;
      assert (h + patch) + patch == h + patch;
    } else {
      assert patch + patch == patch;
    }
  }

  /** `hideModal` closes the modal and drops its data; `deleteHabit` opens the delete modal on a copy of the payload. */
  lemma HideAndDelete(state: ModalState, patch: JsObject)
    ensures Reduce(state, HideModal) == ModalState(None, None)
    ensures Reduce(state, DeleteHabit(patch)).kind == Some(DeleteHabitModal)
    ensures HabitOf(Reduce(state, DeleteHabit(patch))) == Some(patch)
    ensures PendingOf(Reduce(state, DeleteHabit(patch))) == None
  {
  }
}
