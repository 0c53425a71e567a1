/**
 * The records exchanged between the mobile client and the REST backend:
 * the Todo row itself and the JSON bodies of the create and update requests.
 */
module TodoModel {

  datatype Option<T> = None | Some(value: T)

  /** One task record: the Sequelize model's columns without the timestamps. */
  datatype Todo = Todo(
    id: int,
    title: string,
    completed: bool,
    category: string,
    priority: string)

  /** Column defaults of the model. */
  const DEFAULT_COMPLETED := false
  const DEFAULT_CATEGORY := "general"
  const DEFAULT_PRIORITY := "medium"

  /** The values of the priority enum, lowest first. */
  const PRIORITIES: seq<string> := ["low", "medium", "high"]

  /** The categories the client offers when a task is created. */
  const CATEGORIES: seq<string> := ["general", "work", "personal", "shopping", "health"]

  /** Body of `POST /todos`; an absent key is `None`. */
  datatype CreateBody = CreateBody(
    title: Option<string>,
    category: Option<string>,
    priority: Option<string>)

  /** Body of `PUT /todos/:id`: any subset of the editable fields. */
  datatype UpdateBody = UpdateBody(
    title: Option<string>,
    completed: Option<bool>,
    category: Option<string>,
    priority: Option<string>)

  /** True when no two entries of the list share an id. */
  predicate UniqueIds(todos: seq<Todo>)
  {
    forall i, j :: 0 <= i < j < |todos| ==> todos[i].id != todos[j].id
  }

  /** The set of ids that occur in the list. */
  function IdsOf(todos: seq<Todo>): (ids: set<int>)
    ensures forall i :: 0 <= i < |todos| ==> todos[i].id in ids
  {
    set i | 0 <= i < |todos| :: todos[i].id
  }

  /** The ids of a list that starts with `t`. */
  lemma IdsOfCons(t: Todo, rest: seq<Todo>)
    ensures IdsOf([t] + rest) == {t.id} + IdsOf(rest)
  {
    var s := [t] + rest;
    assert s[0] == t;
    forall k | k in IdsOf(s) ensures k == t.id || k in IdsOf(rest) {
      var i :| 0 <= i < |s| && s[i].id == k;
      if i > 0 { assert s[i] == rest[i - 1]; }
    }
    forall k | k in IdsOf(rest) ensures k in IdsOf(s) {
      var i :| 0 <= i < |rest| && rest[i].id == k;
      assert s[i + 1] == rest[i];
    }
  }

  /** A list that starts with `t` has unique ids exactly when its tail does and does not hold `t`'s id. */
  lemma UniqueIdsCons(t: Todo, rest: seq<Todo>)
    ensures UniqueIds([t] + rest) <==> UniqueIds(rest) && t.id !in IdsOf(rest)
  {
    var s := [t] + rest;
    if UniqueIds(s) {
      forall i, j | 0 <= i < j < |rest| ensures rest[i].id != rest[j].id {
        assert rest[i] == s[i + 1] && rest[j] == s[j + 1];
      }
      forall i | 0 <= i < |rest| ensures rest[i].id != t.id {
        assert rest[i] == s[i + 1] && s[0] == t;
      }
    }
    if UniqueIds(rest) && t.id !in IdsOf(rest) {
      forall i, j | 0 <= i < j < |s| ensures s[i].id != s[j].id {
        assert s[j] == rest[j - 1];
        if i > 0 { assert s[i] == rest[i - 1]; }
      }
    }
  }
}
