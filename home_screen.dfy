/**
 * The task list screen of the mobile client: the state it holds, the lists its
 * handlers build from the server's answers, and the category view it renders.
 */
module HomeScreen {
  import opened TodoModel
  import opened ListOps
  import opened JsText

  /** The chip value that selects every category. */
  const ALL := "all"

  /** How an awaited API call ends: the response's `data`, or a rejected promise. */
  datatype Response<T> = Success(data: T) | Failure

  /** The toast a handler shows, by its first line of text. */
  datatype Toast =
    | FetchFailed      // "Failed to fetch todos"
    | TaskAdded        // "Task added successfully"
    | AddFailed        // "Failed to add task"
    | TaskCompleted    // "Task completed"
    | TaskUncompleted  // "Task uncompleted"
    | UpdateFailed     // "Failed to update task"
    | TaskDeleted      // "Task deleted successfully"
    | DeleteFailed     // "Failed to delete task"

  /** The theme colour a priority is drawn in. */
  datatype ColorRole = ErrorColor | TintColor | SuccessColor

  /** `getPriorityColor`: high is drawn in the error colour, low in the success colour, anything else in the tint. */
  function PriorityColor(priority: string): (r: ColorRole)
    ensures r == ErrorColor <==> priority == "high"
    ensures r == SuccessColor <==> priority == "low"
    ensures r == TintColor <==> priority != "high" && priority != "low"
  {
    match priority
    case "high" => ErrorColor
    case "medium" => TintColor
    case "low" => SuccessColor
    case _ => TintColor
  }

  /** The three priorities get three different colours. */
  lemma PriorityColorsDistinct()
    ensures PriorityColor(PRIORITIES[0]) != PriorityColor(PRIORITIES[1])
    ensures PriorityColor(PRIORITIES[1]) != PriorityColor(PRIORITIES[2])
    ensures PriorityColor(PRIORITIES[0]) != PriorityColor(PRIORITIES[2])
  {
  }

  /** A priority outside the enum is drawn like the default, medium. */
  lemma UnknownPriorityLooksMedium(priority: string)
    requires priority !in PRIORITIES
    ensures PriorityColor(priority) == PriorityColor(DEFAULT_PRIORITY)
  {
    assert priority != PRIORITIES[0] && priority != PRIORITIES[2];
  }

  /** The Add button is enabled when the text holds a code point that `trim` keeps. */
  function AddButtonEnabled(newTodo: string): (r: bool)
    ensures r <==> exists i :: 0 <= i < |newTodo| && !IsTrimmable(newTodo[i])
  {
    BlankIffAllTrimmable(newTodo);
    !IsBlank(newTodo)
  }

  /** The body of the update request a tap on a task sends: only the flipped flag. */
  function ToggleBody(todo: Todo): (body: UpdateBody)
    ensures body.completed == Some(!todo.completed)
    ensures body.title.None? && body.category.None? && body.priority.None?
  {
    UpdateBody(None, Some(!todo.completed), None, None)
  }

  /** `todos.map(t => t.id === id ? updated : t)`: positions and length are kept. */
  function ReplaceById(todos: seq<Todo>, id: int, updated: Todo): (r: seq<Todo>)
    ensures |r| == |todos|
    ensures forall i :: 0 <= i < |todos| && todos[i].id == id ==> r[i] == updated
    ensures forall i :: 0 <= i < |todos| && todos[i].id != id ==> r[i] == todos[i]
  {
    Map((t: Todo) => if t.id == id then updated else t, todos)
  }

  /** Replacing an id that is not in the list changes nothing. */
  lemma ReplaceAbsentId(todos: seq<Todo>, id: int, updated: Todo)
    requires id !in IdsOf(todos)
    ensures ReplaceById(todos, id, updated) == todos
  {
    var r := ReplaceById(todos, id, updated);
    assert forall i :: 0 <= i < |todos| ==> r[i] == todos[i];
  }

  /** Replacing by a record that keeps the id keeps the ids unique. */
  lemma ReplaceKeepsUniqueIds(todos: seq<Todo>, id: int, updated: Todo)
    requires UniqueIds(todos) && updated.id == id
    ensures UniqueIds(ReplaceById(todos, id, updated))
    ensures IdsOf(ReplaceById(todos, id, updated)) == IdsOf(todos)
  {
    var r := ReplaceById(todos, id, updated);
    assert forall i :: 0 <= i < |todos| ==> r[i].id == todos[i].id;
  }

  /** `todos.filter(todo => todo.id !== id)`. */
  function RemoveById(todos: seq<Todo>, id: int): (r: seq<Todo>)
    ensures |r| <= |todos|
    ensures forall i :: 0 <= i < |r| ==> r[i].id != id
  {
    Filter((t: Todo) => t.id != id, todos)
  }

  /** Removal drops exactly the entries with that id and keeps every other entry as often as it occurred. */
  lemma RemoveExactly(todos: seq<Todo>, id: int, t: Todo)
    ensures t in RemoveById(todos, id) <==> t in todos && t.id != id
    ensures multiset(RemoveById(todos, id))[t] == if t.id == id then 0 else multiset(todos)[t]
  {
    FilterMembership((t: Todo) => t.id != id, todos, t);
    FilterMultiplicity((t: Todo) => t.id != id, todos, t);
  }

  /** Removal keeps the relative order of what remains: it works piecewise on a split list. */
  lemma RemoveKeepsOrder(a: seq<Todo>, b: seq<Todo>, id: int)
    ensures RemoveById(a + b, id) == RemoveById(a, id) + RemoveById(b, id)
  {
    FilterConcat((t: Todo) => t.id != id, a, b);
  }

  /** Removing an id that is not in the list changes nothing. */
  lemma RemoveAbsentId(todos: seq<Todo>, id: int)
    requires id !in IdsOf(todos)
    ensures RemoveById(todos, id) == todos
  {
    FilterKeepsAll((t: Todo) => t.id != id, todos);
  }

  /** The list after a removal has unique ids and has lost exactly the removed id. */
  lemma RemoveKeepsUniqueIds(todos: seq<Todo>, id: int)
    requires UniqueIds(todos)
    ensures UniqueIds(RemoveById(todos, id))
    ensures IdsOf(RemoveById(todos, id)) == IdsOf(todos) - {id}
  {
    if todos != [] {
      var t, rest := todos[0], todos[1..];
      assert todos == [t] + rest;
      UniqueIdsCons(t, rest);
      IdsOfCons(t, rest);
      RemoveKeepsUniqueIds(rest, id);
      if t.id != id {
        assert RemoveById(todos, id) == [t] + RemoveById(rest, id);
        UniqueIdsCons(t, RemoveById(rest, id));
        IdsOfCons(t, RemoveById(rest, id));
      } else {
        assert RemoveById(todos, id) == RemoveById(rest, id);
      }
    }
  }

  /** `filteredTodos`: the whole list for `all`, otherwise the entries of the selected category. */
  function CategoryView(todos: seq<Todo>, selectedCategory: string): (r: seq<Todo>)
    ensures selectedCategory == ALL ==> r == todos
    ensures |r| <= |todos|
    ensures forall i :: 0 <= i < |r| ==> selectedCategory == ALL || r[i].category == selectedCategory
  {
    if selectedCategory == ALL then todos
    else Filter((t: Todo) => t.category == selectedCategory, todos)
  }

  /** A specific category shows exactly its entries, each as often as it occurs in the list. */
  lemma CategoryViewExactly(todos: seq<Todo>, selectedCategory: string, t: Todo)
    requires selectedCategory != ALL
    ensures t in CategoryView(todos, selectedCategory) <==> t in todos && t.category == selectedCategory
    ensures multiset(CategoryView(todos, selectedCategory))[t]
         == if t.category == selectedCategory then multiset(todos)[t] else 0
  {
    FilterMembership((t: Todo) => t.category == selectedCategory, todos, t);
    FilterMultiplicity((t: Todo) => t.category == selectedCategory, todos, t);
  }

  /** The view keeps the list's order: it works piecewise on a split list. */
  lemma CategoryViewKeepsOrder(a: seq<Todo>, b: seq<Todo>, selectedCategory: string)
    ensures CategoryView(a + b, selectedCategory) == CategoryView(a, selectedCategory) + CategoryView(b, selectedCategory)
  {
    if selectedCategory != ALL {
      FilterConcat((t: Todo) => t.category == selectedCategory, a, b);
    }
  }

  /** Applying the same category view twice is applying it once. */
  lemma CategoryViewIdempotent(todos: seq<Todo>, selectedCategory: string)
    ensures CategoryView(CategoryView(todos, selectedCategory), selectedCategory) == CategoryView(todos, selectedCategory)
  {
    if selectedCategory != ALL {
      FilterIdempotent((t: Todo) => t.category == selectedCategory, todos);
    }
  }

  /** The screen's state; every handler is one atomic step that ends after its API call. */
  class Screen {
    var todos: seq<Todo>
    var newTodo: string
    var loading: bool
    var refreshing: bool
    var selectedCategory: string
    var modalVisible: bool
    var newTodoCategory: string
    var newTodoPriority: string

    /** The selections are always values the screen's chips offer. */
    ghost predicate Valid()
      reads this
    {
      && (selectedCategory == ALL || selectedCategory in CATEGORIES)
      && newTodoCategory in CATEGORIES
      && newTodoPriority in PRIORITIES
    }

    constructor ()
      ensures Valid()
      ensures todos == [] && newTodo == "" && loading && !refreshing
      ensures selectedCategory == ALL && !modalVisible
      ensures newTodoCategory == DEFAULT_CATEGORY && newTodoPriority == DEFAULT_PRIORITY
    {
      todos := [];
      newTodo := "";
      loading := true;
      refreshing := false;
      selectedCategory := ALL;
      modalVisible := false;
      newTodoCategory := DEFAULT_CATEGORY;
      newTodoPriority := DEFAULT_PRIORITY;
    }

    /** `fetchTodos`: the response replaces the list; either way both spinners stop. */
    method FetchTodos(response: Response<seq<Todo>>) returns (toast: Option<Toast>)
      modifies this`todos, this`loading, this`refreshing
      ensures todos == if response.Success? then response.data else old(todos)
      ensures !loading && !refreshing
      ensures toast == if response.Success? then None else Some(FetchFailed)
    {
      toast := None;
      if response.Success? {
        todos := response.data;
      } else {
        toast := Some(FetchFailed);
      }
      loading := false;
      refreshing := false;
    }

    /** Pull to refresh: raise the refresh spinner, then fetch. */
    method OnRefresh(response: Response<seq<Todo>>) returns (toast: Option<Toast>)
      modifies this`todos, this`loading, this`refreshing
      ensures todos == if response.Success? then response.data else old(todos)
      ensures !loading && !refreshing
      ensures toast == if response.Success? then None else Some(FetchFailed)
    {
      refreshing := true;
      toast := FetchTodos(response);
    }

    /**
     * `addTodo`: a blank title sends nothing and changes nothing. Otherwise the untrimmed
     * title goes out with the selected category and priority; on success the returned
     * record is put first and the dialog is cleared and closed, on failure nothing changes.
     */
    method AddTodo(response: Response<Todo>) returns (request: Option<CreateBody>, toast: Option<Toast>)
      modifies this`todos, this`newTodo, this`modalVisible
      ensures request.None? <==> IsBlank(old(newTodo))
      ensures request.Some? ==> request.value == CreateBody(Some(old(newTodo)), Some(newTodoCategory), Some(newTodoPriority))
      ensures request.Some? && response.Success? ==>
        && todos == [response.data] + old(todos)
        && |todos| == |old(todos)| + 1 && todos[0] == response.data && todos[1..] == old(todos)
        && newTodo == "" && !modalVisible
        && toast == Some(TaskAdded)
      ensures request.None? || response.Failure? ==>
        todos == old(todos) && newTodo == old(newTodo) && modalVisible == old(modalVisible)
      ensures request.None? ==> toast == None
      ensures request.Some? && response.Failure? ==> toast == Some(AddFailed)
    {
      if IsBlank(newTodo) {
        return None, None;
      }
      request := Some(CreateBody(Some(newTodo), Some(newTodoCategory), Some(newTodoPriority)));
      if response.Success? {
        todos := [response.data] + todos;
        newTodo := "";
        modalVisible := false;
        toast := Some(TaskAdded);
      } else {
        toast := Some(AddFailed);
      }
    }

    /**
     * `toggleTodo`: sends the flipped flag for the tapped record; on success every entry
     * with that id becomes the returned record. The toast follows the tapped record's flag.
     */
    method ToggleTodo(todo: Todo, response: Response<Todo>) returns (id: int, body: UpdateBody, toast: Toast)
      modifies this`todos
      ensures id == todo.id
      ensures body == UpdateBody(None, Some(!todo.completed), None, None)
      ensures todos == if response.Success? then ReplaceById(old(todos), todo.id, response.data) else old(todos)
      ensures toast == if response.Failure? then UpdateFailed
                       else if todo.completed then TaskUncompleted else TaskCompleted
    {
      id, body := todo.id, ToggleBody(todo);
      if response.Success? {
        todos := ReplaceById(todos, todo.id, response.data);
        toast := if todo.completed then TaskUncompleted else TaskCompleted;
      } else {
        toast := UpdateFailed;
      }
    }

    /** `deleteTodo`: on success every entry with that id leaves the list; on failure nothing changes. */
    method DeleteTodo(id: int, response: Response<()>) returns (toast: Toast)
      modifies this`todos
      ensures todos == if response.Success? then RemoveById(old(todos), id) else old(todos)
      ensures toast == if response.Success? then TaskDeleted else DeleteFailed
    {
      if response.Success? {
        todos := RemoveById(todos, id);
        toast := TaskDeleted;
      } else {
        toast := DeleteFailed;
      }
    }

    /** The floating button opens the dialog. */
    method OpenModal()
      modifies this`modalVisible
      ensures modalVisible
    {
      modalVisible := true;
    }

    /** Cancel, or the system back gesture, closes the dialog and keeps its text. */
    method CloseModal()
      modifies this`modalVisible
      ensures !modalVisible
    {
      modalVisible := false;
    }

    /** Typing in the dialog's text field. */
    method EditNewTodo(text: string)
      modifies this`newTodo
      ensures newTodo == text
    {
      newTodo := text;
    }

    /** A category chip above the list selects what the list shows. */
    method SelectCategory(category: string)
      requires Valid() && (category == ALL || category in CATEGORIES)
      modifies this`selectedCategory
      ensures Valid() && selectedCategory == category
    {
      selectedCategory := category;
    }

    /** A category chip in the dialog selects the new task's category. */
    method SelectNewTodoCategory(category: string)
      requires Valid() && category in CATEGORIES
      modifies this`newTodoCategory
      ensures Valid() && newTodoCategory == category
    {
      newTodoCategory := category;
    }

    /** A priority chip in the dialog selects the new task's priority. */
    method SelectNewTodoPriority(priority: string)
      requires Valid() && priority in PRIORITIES
      modifies this`newTodoPriority
      ensures Valid() && newTodoPriority == priority
    {
      newTodoPriority := priority;
    }
  }
}
