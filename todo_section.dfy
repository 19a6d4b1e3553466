/**
 * src/sections/todoSection.tsx: the done/active test, the active/completed filter,
 * the defaults and the validation of a new todo. The validation toast is dropped.
 */
module TodoSection {
  import opened Types
  import opened Collections

  /** `checkIfItsDone(todo, isDone)`: whether the todo's completion state is `isDone`; the caller passes `true` for the default. */
  function CheckIfItsDone(todo: Todo, isDone: bool): (r: bool)
    ensures isDone ==> (r <==> todo.doneDate.Some?)
    ensures !isDone ==> (r <==> todo.doneDate.None?)
  {
    todo.doneDate.Some? == isDone
  }

  function DoneIs(isDone: bool): Todo -> bool {
    (t: Todo) => CheckIfItsDone(t, isDone)
  }

  /** `todosFiltered`: filter 0 keeps the active todos, 1 the completed ones, any other value all of them. */
  function TodosFiltered(todos: seq<Todo>, filter: Option<int>): (r: seq<Todo>)
    ensures filter == Some(0) ==> forall t :: t in r <==> t in todos && t.doneDate.None?
    ensures filter == Some(1) ==> forall t :: t in r <==> t in todos && t.doneDate.Some?
    ensures filter != Some(0) && filter != Some(1) ==> r == todos
  {
    if filter == Some(0) then Filter(todos, DoneIs(false))
    else if filter == Some(1) then Filter(todos, DoneIs(true))
    else todos
  }

  /** The active and the completed views split the list: every todo is in exactly one, as often as in the list. */
  lemma ActiveAndCompletedPartition(todos: seq<Todo>)
    ensures multiset(TodosFiltered(todos, Some(0))) + multiset(TodosFiltered(todos, Some(1))) == multiset(todos)
    ensures |TodosFiltered(todos, Some(0))| + |TodosFiltered(todos, Some(1))| == |todos|
  {
    FilterPartition(todos, DoneIs(false), DoneIs(true));
  }

  /** Both views keep the order of the list: filtering distributes over concatenation. */
  lemma TodosFilteredKeepsOrder(a: seq<Todo>, b: seq<Todo>, filter: Option<int>)
    ensures TodosFiltered(a + b, filter) == TodosFiltered(a, filter) + TodosFiltered(b, filter)
  {
    FilterAppend(a, b, DoneIs(false));
    FilterAppend(a, b, DoneIs(true));
  }

  /** `createDefaultHabit(id, title)`: a todo with no completion and no due date, so an active one. */
  function CreateDefaultHabit(id: string, title: string): (t: Todo)
    ensures t.id == id && t.title == title && t.dueDate.None?
    ensures CheckIfItsDone(t, false) && !CheckIfItsDone(t, true)
  {
    Todo(id, title, None, None)
  }

  /** A new todo shows up at the end of the active view and not in the completed one. */
  lemma {:induction false} NewTodoIsActive(todos: seq<Todo>, id: string, title: string)
    ensures var t := CreateDefaultHabit(id, title);
      && TodosFiltered(todos + [t], Some(0)) == TodosFiltered(todos, Some(0)) + [t]
      && TodosFiltered(todos + [t], Some(1)) == TodosFiltered(todos, Some(1))
  {
    var t := CreateDefaultHabit(id, title);
    TodosFilteredKeepsOrder(todos, [t], Some(0));
    TodosFilteredKeepsOrder(todos, [t], Some(1));
    assert [t][1..] == [];
  }

  /** `validateHabit(habit)`: a todo is rejected exactly when its title is empty. */
  function ValidateHabit(t: Todo): (v: Validation)
    ensures v == Accepted <==> t.title != ""
    ensures v != Accepted ==> v == Rejected("title")
  {
    if t.title == "" then Rejected("title") else Accepted
  }
}
