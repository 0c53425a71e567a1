/**
 * How the client's list follows the server's table: the list holds each stored row
 * exactly once, and every handler that succeeds on both sides keeps it that way.
 */
module Sync {
  import opened TodoModel
  import opened HomeScreen
  import opened TodoController
  import opened JsText

  /** The list holds every stored row exactly once, as it is stored, in some order. */
  ghost predicate Mirrors(todos: seq<Todo>, rows: map<int, Todo>)
  {
    && UniqueIds(todos)
    && IdsOf(todos) == rows.Keys
    && forall i :: 0 <= i < |todos| ==> rows[todos[i].id] == todos[i]
  }

  /** A successful fetch makes the list a mirror of the table, whatever order the database chose. */
  lemma FetchedListMirrors(rows: map<int, Todo>, order: seq<int>)
    requires forall k :: k in rows ==> rows[k].id == k
    requires forall i :: 0 <= i < |order| ==> order[i] in rows
    requires forall k :: k in rows ==> k in order
    requires forall i, j :: 0 <= i < j < |order| ==> order[i] != order[j]
    ensures Mirrors(Listing(rows, order), rows)
  {
    var todos := Listing(rows, order);
    forall k | k in rows ensures k in IdsOf(todos) {
      var i :| 0 <= i < |order| && order[i] == k;
      assert todos[i].id == k;
    }
  }

  /** Inserting the created row and putting it first in the list keeps the mirror. */
  lemma CreateKeepsMirror(todos: seq<Todo>, rows: map<int, Todo>, freshId: int, body: CreateBody)
    requires Mirrors(todos, rows) && freshId !in rows && body.title.Some?
    ensures Mirrors([NewRecord(freshId, body)] + todos, rows[freshId := NewRecord(freshId, body)])
  {
    var row := NewRecord(freshId, body);
    var todos' := [row] + todos;
    UniqueIdsCons(row, todos);
    IdsOfCons(row, todos);
    forall i | 0 <= i < |todos'| ensures rows[freshId := row][todos'[i].id] == todos'[i] {
      if i > 0 {
        assert todos'[i] == todos[i - 1];
        assert todos[i - 1].id in IdsOf(todos);
      }
    }
  }

  /** Replacing a stored row, in the table and in the list alike, keeps the mirror. */
  lemma ReplaceKeepsMirror(todos: seq<Todo>, rows: map<int, Todo>, row: Todo)
    requires Mirrors(todos, rows) && row.id in rows
    ensures Mirrors(ReplaceById(todos, row.id, row), rows[row.id := row])
  {
    var todos', rows' := ReplaceById(todos, row.id, row), rows[row.id := row];
    ReplaceKeepsUniqueIds(todos, row.id, row);
    assert rows'.Keys == rows.Keys;
    forall i | 0 <= i < |todos'| ensures rows'[todos'[i].id] == todos'[i] {
      if todos[i].id == row.id {
        assert todos'[i] == row;
      } else {
        assert todos'[i] == todos[i];
      }
    }
  }

  /** Updating a stored row and replacing it in the list by the server's answer keeps the mirror. */
  lemma UpdateKeepsMirror(todos: seq<Todo>, rows: map<int, Todo>, id: int, body: UpdateBody)
    requires Mirrors(todos, rows) && id in rows && rows[id].id == id
    ensures Mirrors(ReplaceById(todos, id, ApplyUpdate(rows[id], body)), rows[id := ApplyUpdate(rows[id], body)])
  {
    ReplaceKeepsMirror(todos, rows, ApplyUpdate(rows[id], body));
  }

  /** Deleting a stored row and removing it from the list keeps the mirror. */
  lemma DeleteKeepsMirror(todos: seq<Todo>, rows: map<int, Todo>, id: int)
    requires Mirrors(todos, rows)
    ensures Mirrors(RemoveById(todos, id), rows - {id})
  {
    var todos' := RemoveById(todos, id);
    RemoveKeepsUniqueIds(todos, id);
    forall i | 0 <= i < |todos'| ensures (rows - {id})[todos'[i].id] == todos'[i] {
      RemoveExactly(todos, id, todos'[i]);
      var j :| 0 <= j < |todos| && todos[j] == todos'[i];
    }
  }

  /**
   * A tap on a mirrored task: the server flips `completed` and nothing else, and in the
   * new list that task sits at the same place with only its flag flipped.
   */
  lemma ToggleFlipsOnlyCompleted(todos: seq<Todo>, rows: map<int, Todo>, k: nat)
    requires Mirrors(todos, rows) && k < |todos|
    ensures ApplyUpdate(rows[todos[k].id], ToggleBody(todos[k])) == todos[k].(completed := !todos[k].completed)
    ensures var todos' := ReplaceById(todos, todos[k].id, todos[k].(completed := !todos[k].completed));
      && |todos'| == |todos|
      && todos'[k] == todos[k].(completed := !todos[k].completed)
      && forall i :: 0 <= i < |todos| && i != k ==> todos'[i] == todos[i]
  {
    var t := todos[k];
    var todos' := ReplaceById(todos, t.id, t.(completed := !t.completed));
    forall i | 0 <= i < |todos| && i != k ensures todos'[i] == todos[i] {
      assert todos[i].id != t.id;
    }
  }

  /** Flipping a task's flag in place keeps it in the same category view. */
  lemma ToggleKeepsCategoryView(todos: seq<Todo>, k: nat, selectedCategory: string)
    requires k < |todos|
    ensures var t' := todos[k].(completed := !todos[k].completed);
      t' in CategoryView(ReplaceById(todos, todos[k].id, t'), selectedCategory)
      <==> todos[k] in CategoryView(todos, selectedCategory)
  {
    var t := todos[k];
    var t' := t.(completed := !t.completed);
    var todos' := ReplaceById(todos, t.id, t');
    assert todos'[k] == t';
    if selectedCategory != ALL {
      CategoryViewExactly(todos, selectedCategory, t);
      CategoryViewExactly(todos', selectedCategory, t');
    }
  }

  /**
   * A create request built from the dialog's selections is stored as chosen: the
   * selections are never empty, so the server's fallbacks do not apply.
   */
  lemma DialogSelectionsSurviveDefaults(id: int, title: string, category: string, priority: string)
    requires category in CATEGORIES && priority in PRIORITIES
    ensures NewRecord(id, CreateBody(Some(title), Some(category), Some(priority)))
         == Todo(id, title, false, category, priority)
  {
  }

  /** The dialog starts on the same category and priority the server falls back to. */
  lemma DialogStartsOnServerDefaults(id: int, title: string)
    ensures NewRecord(id, CreateBody(Some(title), Some(DEFAULT_CATEGORY), Some(DEFAULT_PRIORITY)))
         == NewRecord(id, CreateBody(Some(title), None, None))
    ensures DEFAULT_CATEGORY in CATEGORIES && DEFAULT_PRIORITY in PRIORITIES
  {
  }

  /**
   * Stand-in for the HTTP client in the round trips below: a reply with a 2xx status
   * and a row in its body resolves with that row, anything else rejects.
   */
  function Received(reply: Reply): Response<Todo>
  {
    if 200 <= reply.status < 300 && reply.body.TodoJson? then Success(reply.body.todo) else Failure
  }

  /** A create round trip: the dialog's request reaches the table, the answer reaches the list. */
  method AddRoundTrip(screen: Screen, store: TodoStore, freshId: int)
    requires screen.Valid() && store.Valid() && Mirrors(screen.todos, store.rows) && freshId !in store.rows
    modifies screen`todos, screen`newTodo, screen`modalVisible, store
    ensures store.Valid() && Mirrors(screen.todos, store.rows)
    ensures IsBlank(old(screen.newTodo)) ==>
      && screen.todos == old(screen.todos) && store.rows == old(store.rows)
      && screen.newTodo == old(screen.newTodo) && screen.modalVisible == old(screen.modalVisible)
    ensures !IsBlank(old(screen.newTodo)) ==> screen.newTodo == "" && !screen.modalVisible
    ensures !IsBlank(old(screen.newTodo)) ==>
      var row := Todo(freshId, old(screen.newTodo), false, screen.newTodoCategory, screen.newTodoPriority);
      screen.todos == [row] + old(screen.todos) && store.rows == old(store.rows)[freshId := row]
  {
    if IsBlank(screen.newTodo) {
      var _, _ := screen.AddTodo(Failure);
      return;
    }
    var body := CreateBody(Some(screen.newTodo), Some(screen.newTodoCategory), Some(screen.newTodoPriority));
    DialogSelectionsSurviveDefaults(freshId, screen.newTodo, screen.newTodoCategory, screen.newTodoPriority);
    CreateKeepsMirror(screen.todos, store.rows, freshId, body);
    var reply := store.CreateTodo(body, freshId, None);
    var _, _ := screen.AddTodo(Received(reply));
  }

  /** A toggle round trip on a listed task keeps the list a mirror of the table. */
  method ToggleRoundTrip(screen: Screen, store: TodoStore, k: nat)
    requires store.Valid() && Mirrors(screen.todos, store.rows) && k < |screen.todos|
    modifies screen`todos, store
    ensures store.Valid() && Mirrors(screen.todos, store.rows)
    ensures |screen.todos| == |old(screen.todos)|
    ensures screen.todos[k] == old(screen.todos[k]).(completed := !old(screen.todos[k]).completed)
    ensures forall i :: 0 <= i < |screen.todos| && i != k ==> screen.todos[i] == old(screen.todos[i])
    ensures store.rows == old(store.rows)[old(screen.todos[k]).id := screen.todos[k]]
  {
    var todo := screen.todos[k];
    ToggleFlipsOnlyCompleted(screen.todos, store.rows, k);
    UpdateKeepsMirror(screen.todos, store.rows, todo.id, ToggleBody(todo));
    var reply := store.UpdateTodo(todo.id, ToggleBody(todo), None, None);
    var _, _, _ := screen.ToggleTodo(todo, Received(reply));
  }

  /** A delete round trip: afterwards the id is in neither the table nor the list, which still mirrors it. */
  method DeleteRoundTrip(screen: Screen, store: TodoStore, id: int)
    requires store.Valid() && Mirrors(screen.todos, store.rows)
    modifies screen`todos, store
    ensures store.Valid() && Mirrors(screen.todos, store.rows)
    ensures id !in store.rows && id !in IdsOf(screen.todos)
    ensures store.rows == old(store.rows) - {id}
    ensures screen.todos == RemoveById(old(screen.todos), id)
  {
    DeleteKeepsMirror(screen.todos, store.rows, id);
    var reply := store.DeleteTodo(id, None, None);
    if reply.status == NO_CONTENT {
      var _ := screen.DeleteTodo(id, Success(()));
    } else {
      RemoveAbsentId(screen.todos, id);
      var _ := screen.DeleteTodo(id, Failure);
    }
  }
}
