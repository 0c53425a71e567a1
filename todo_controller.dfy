/**
 * The backend's request handlers over the persistent table, which is modelled as a
 * map from primary key to row. Each handler is one atomic step that answers a status
 * code and a JSON body.
 */
module TodoController {
  import opened TodoModel

  const OK := 200
  const CREATED := 201
  const NO_CONTENT := 204
  const NOT_FOUND := 404
  const SERVER_ERROR := 500

  const NOT_FOUND_MESSAGE := "Todo not found"

  /** What `res.json(...)` or `res.send()` puts on the wire. */
  datatype Body = TodoJson(todo: Todo) | TodoListJson(todos: seq<Todo>) | ErrorJson(error: string) | NoContent

  datatype Reply = Reply(status: int, body: Body)

  /** `value || fallback` for a string field of the body: a missing key and "" are falsy. */
  function OrDefault(value: Option<string>, fallback: string): (r: string)
    ensures value.None? || value == Some("") ==> r == fallback
    ensures value.Some? && value.value != "" ==> r == value.value
  {
    match value
    case Some(v) => if v != "" then v else fallback
    case None => fallback
  }

  /**
   * The row `createTodo` inserts: the given title, a falsy category becomes "general",
   * a falsy priority becomes "medium", and `completed` takes its column default.
   */
  function NewRecord(id: int, body: CreateBody): (r: Todo)
    requires body.title.Some?
    ensures r.id == id && r.title == body.title.value && r.completed == DEFAULT_COMPLETED
    ensures r.category == OrDefault(body.category, DEFAULT_CATEGORY)
    ensures r.priority == OrDefault(body.priority, DEFAULT_PRIORITY)
    ensures r.category != "" && r.priority != ""
  {
    Todo(id, body.title.value, DEFAULT_COMPLETED,
         OrDefault(body.category, DEFAULT_CATEGORY),
         OrDefault(body.priority, DEFAULT_PRIORITY))
  }

  /** `todo.update(...)`: each field given in the body replaces the old one; the id never changes. */
  function ApplyUpdate(row: Todo, body: UpdateBody): (r: Todo)
    ensures r.id == row.id
    ensures r.title == (if body.title.Some? then body.title.value else row.title)
    ensures r.completed == (if body.completed.Some? then body.completed.value else row.completed)
    ensures r.category == (if body.category.Some? then body.category.value else row.category)
    ensures r.priority == (if body.priority.Some? then body.priority.value else row.priority)
  {
    Todo(row.id,
         match body.title case Some(t) => t case None => row.title,
         match body.completed case Some(c) => c case None => row.completed,
         match body.category case Some(c) => c case None => row.category,
         match body.priority case Some(p) => p case None => row.priority)
  }

  /** Sending the same update twice leaves the row as sending it once. */
  lemma ApplyUpdateIdempotent(row: Todo, body: UpdateBody)
    ensures ApplyUpdate(ApplyUpdate(row, body), body) == ApplyUpdate(row, body)
  {
  }

  /** An update with an empty body leaves the row as it was. */
  lemma EmptyUpdateKeepsRow(row: Todo)
    ensures ApplyUpdate(row, UpdateBody(None, None, None, None)) == row
  {
  }

  /** The rows in the order the database lists their keys. */
  function Listing(rows: map<int, Todo>, order: seq<int>): (r: seq<Todo>)
    requires forall i :: 0 <= i < |order| ==> order[i] in rows
    ensures |r| == |order|
    ensures forall i :: 0 <= i < |order| ==> r[i] == rows[order[i]]
  {
    seq(|order|, i requires 0 <= i < |order| => rows[order[i]])
  }

  /** The `Todos` table. */
  class TodoStore {
    var rows: map<int, Todo>

    /** Every row is stored under its own primary key. */
    ghost predicate Valid()
      reads this
    {
      forall k :: k in rows ==> rows[k].id == k
    }

    constructor ()
      ensures Valid() && rows == map[]
    {
      rows := map[];
    }

    /**
     * `getTodos`: the whole table, in the order the database chose (`order` lists every
     * key once), or 500 with the thrown message.
     */
    method GetTodos(order: seq<int>, dbError: Option<string>) returns (reply: Reply)
      requires forall i :: 0 <= i < |order| ==> order[i] in rows
      requires forall k :: k in rows ==> k in order
      requires forall i, j :: 0 <= i < j < |order| ==> order[i] != order[j]
      ensures dbError.Some? ==> reply == Reply(SERVER_ERROR, ErrorJson(dbError.value))
      ensures dbError.None? ==> reply.status == OK && reply.body.TodoListJson?
      ensures dbError.None? ==> |reply.body.todos| == |rows| && reply.body.todos == Listing(rows, order)
    {
      if dbError.Some? {
        return Reply(SERVER_ERROR, ErrorJson(dbError.value));
      }
      DistinctKeysCount(rows, order);
      reply := Reply(OK, TodoListJson(Listing(rows, order)));
    }

    /**
     * `createTodo`: inserts the defaulted row under a key not yet in use and answers 201
     * with it; when the insert throws (it does for a missing title) the table is unchanged
     * and the answer is 500.
     */
    method CreateTodo(body: CreateBody, freshId: int, dbError: Option<string>) returns (reply: Reply)
      requires Valid() && freshId !in rows
      requires body.title.None? ==> dbError.Some?
      modifies this
      ensures Valid()
      ensures dbError.Some? ==> rows == old(rows) && reply == Reply(SERVER_ERROR, ErrorJson(dbError.value))
      ensures dbError.None? ==>
        && rows == old(rows)[freshId := NewRecord(freshId, body)]
        && reply == Reply(CREATED, TodoJson(NewRecord(freshId, body)))
    {
      if dbError.Some? {
        return Reply(SERVER_ERROR, ErrorJson(dbError.value));
      }
      var row := NewRecord(freshId, body);
      rows := rows[freshId := row];
      reply := Reply(CREATED, TodoJson(row));
    }

    /**
     * `updateTodo`: looks the key up first (404 when absent), then applies the body to
     * that row alone and answers 200 with it. A throw at either step answers 500 and
     * leaves the table unchanged.
     */
    method UpdateTodo(id: int, body: UpdateBody, lookupError: Option<string>, writeError: Option<string>)
      returns (reply: Reply)
      requires Valid()
      modifies this
      ensures Valid()
      ensures lookupError.Some? ==> rows == old(rows) && reply == Reply(SERVER_ERROR, ErrorJson(lookupError.value))
      ensures lookupError.None? && id !in old(rows) ==>
        rows == old(rows) && reply == Reply(NOT_FOUND, ErrorJson(NOT_FOUND_MESSAGE))
      ensures lookupError.None? && id in old(rows) && writeError.Some? ==>
        rows == old(rows) && reply == Reply(SERVER_ERROR, ErrorJson(writeError.value))
      ensures lookupError.None? && id in old(rows) && writeError.None? ==>
        && rows == old(rows)[id := ApplyUpdate(old(rows)[id], body)]
        && reply == Reply(OK, TodoJson(ApplyUpdate(old(rows)[id], body)))
    {
      if lookupError.Some? {
        return Reply(SERVER_ERROR, ErrorJson(lookupError.value));
      }
      if id !in rows {
        return Reply(NOT_FOUND, ErrorJson(NOT_FOUND_MESSAGE));
      }
      if writeError.Some? {
        return Reply(SERVER_ERROR, ErrorJson(writeError.value));
      }
      var row := ApplyUpdate(rows[id], body);
      rows := rows[id := row];
      reply := Reply(OK, TodoJson(row));
    }

    /**
     * `deleteTodo`: looks the key up first (404 when absent), then removes exactly that
     * key and answers 204 with no body. A throw at either step answers 500 and leaves
     * the table unchanged.
     */
    method DeleteTodo(id: int, lookupError: Option<string>, writeError: Option<string>) returns (reply: Reply)
      requires Valid()
      modifies this
      ensures Valid()
      ensures lookupError.Some? ==> rows == old(rows) && reply == Reply(SERVER_ERROR, ErrorJson(lookupError.value))
      ensures lookupError.None? && id !in old(rows) ==>
        rows == old(rows) && reply == Reply(NOT_FOUND, ErrorJson(NOT_FOUND_MESSAGE))
      ensures lookupError.None? && id in old(rows) && writeError.Some? ==>
        rows == old(rows) && reply == Reply(SERVER_ERROR, ErrorJson(writeError.value))
      ensures lookupError.None? && id in old(rows) && writeError.None? ==>
        rows == old(rows) - {id} && reply == Reply(NO_CONTENT, NoContent)
    {
      if lookupError.Some? {
        return Reply(SERVER_ERROR, ErrorJson(lookupError.value));
      }
      if id !in rows {
        return Reply(NOT_FOUND, ErrorJson(NOT_FOUND_MESSAGE));
      }
      if writeError.Some? {
        return Reply(SERVER_ERROR, ErrorJson(writeError.value));
      }
      rows := rows - {id};
      reply := Reply(NO_CONTENT, NoContent);
    }
  }

  /** A list of distinct keys that covers a map's domain is exactly as long as the map. */
  lemma DistinctKeysCount(rows: map<int, Todo>, order: seq<int>)
    requires forall i :: 0 <= i < |order| ==> order[i] in rows
    requires forall k :: k in rows ==> k in order
    requires forall i, j :: 0 <= i < j < |order| ==> order[i] != order[j]
    ensures |order| == |rows|
  {
    var keys := set i | 0 <= i < |order| :: order[i];
    forall k | k in rows ensures k in keys {
      var i :| 0 <= i < |order| && order[i] == k;
    }
    assert keys == rows.Keys;
    DistinctCardinality(order);
  }

  /** A sequence without repetitions has as many distinct elements as it is long. */
  lemma {:induction false} DistinctCardinality(s: seq<int>)
    requires forall i, j :: 0 <= i < j < |s| ==> s[i] != s[j]
    ensures |set i | 0 <= i < |s| :: s[i]| == |s|
  {
    if s != [] {
      var rest := s[1..];
      DistinctCardinality(rest);
      var all := set i | 0 <= i < |s| :: s[i];
      var tail := set i | 0 <= i < |rest| :: rest[i];
      assert all == {s[0]} + tail by {
        forall k | k in all ensures k == s[0] || k in tail {
          var i :| 0 <= i < |s| && s[i] == k;
          if i > 0 { assert rest[i - 1] == s[i]; }
        }
        forall k | k in tail ensures k in all {
          var i :| 0 <= i < |rest| && rest[i] == k;
          assert s[i + 1] == rest[i];
        }
      }
      assert s[0] !in tail by {
        forall i | 0 <= i < |rest| ensures rest[i] != s[0] {
          assert rest[i] == s[i + 1];
        }
      }
    }
  }
}
