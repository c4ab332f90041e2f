/**
  The client store (src/store/useTodoStore.ts): the fields `todos`,
  `isLoading` and `error`, and the actions that change them. An HTTP
  request is not made here: each request action takes the request's
  outcome as a parameter and performs, in one step, the `set` calls the
  source makes before and after awaiting it.
 */
module TodoStore {
  import opened Wrappers
  import opened Todos
  import opened TodoLists

  /** The outcome of an HTTP request: the response body, or a thrown error. */
  datatype Response<T> = Success(body: T) | Failure

  /** The four messages the store shows; `toggleTodo` and `updateTodo`
      share one. */
  datatype ErrorMessage = FetchFailed | AddFailed | UpdateFailed | DeleteFailed

  class Store {
    var todos: seq<Todo>
    var isLoading: bool
    var error: Option<ErrorMessage>

    /** The initial state: no tasks, not loading, no error. */
    constructor ()
      ensures todos == [] && !isLoading && error == None
    {
      todos := [];
      isLoading := false;
      error := None;
    }

    /** `fetchTodos`: loading with the error cleared, then either the
        fetched list or the fetch error; loading ends either way. */
    method FetchTodos(response: Response<seq<Todo>>)
      modifies this
      ensures !isLoading
      ensures response.Success? ==> todos == response.body && error == None
      ensures response.Failure? ==> todos == old(todos) && error == Some(FetchFailed)
    {
      isLoading, error := true, None;
      match response
      case Success(body) =>
        todos, isLoading := body, false;
      case Failure =>
        error, isLoading := Some(FetchFailed), false;
    }

    /** `addTodo`: on success the created record is appended (with no
        dedupe) and returned; on failure the list is kept, the error is
        set and nothing is returned. */
    method AddTodo(response: Response<Todo>) returns (r: Option<Todo>)
      modifies this
      ensures isLoading == old(isLoading)
      ensures response.Success? ==> todos == old(todos) + [response.body] && error == None
                                    && r == Some(response.body)
      ensures response.Failure? ==> todos == old(todos) && error == Some(AddFailed) && r == None
    {
      error := None;
      match response
      case Success(created) =>
        todos := todos + [created];
        r := Some(created);
      case Failure =>
        error := Some(AddFailed);
        r := None;
    }

    /** `toggleTodo`: on success every entry with the requested id becomes
        the server's record; on failure only the error changes. */
    method ToggleTodo(id: string, response: Response<Todo>)
      modifies this
      ensures isLoading == old(isLoading)
      ensures response.Success? ==> todos == ReplaceById(old(todos), id, response.body) && error == None
      ensures response.Failure? ==> todos == old(todos) && error == Some(UpdateFailed)
    {
      error := None;
      match response
      case Success(toggled) =>
        todos := ReplaceById(todos, id, toggled);
      case Failure =>
        error := Some(UpdateFailed);
    }

    /** `deleteTodo`: on success every entry with the id is filtered out;
        on failure only the error changes. */
    method DeleteTodo(id: string, response: Response<()>)
      modifies this
      ensures isLoading == old(isLoading)
      ensures response.Success? ==> todos == RemoveId(old(todos), id) && error == None
      ensures response.Failure? ==> todos == old(todos) && error == Some(DeleteFailed)
    {
      error := None;
      match response
      case Success(_) =>
        todos := RemoveId(todos, id);
      case Failure =>
        error := Some(DeleteFailed);
    }

    /** `updateTodo`: the same shape as `toggleTodo`, with the record the
        server returns for the edited title and description. */
    method UpdateTodo(id: string, response: Response<Todo>)
      modifies this
      ensures isLoading == old(isLoading)
      ensures response.Success? ==> todos == ReplaceById(old(todos), id, response.body) && error == None
      ensures response.Failure? ==> todos == old(todos) && error == Some(UpdateFailed)
    {
      error := None;
      match response
      case Success(updated) =>
        todos := ReplaceById(todos, id, updated);
      case Failure =>
        error := Some(UpdateFailed);
    }

    /** `setTodos`: the list becomes exactly `xs`. */
    method SetTodos(xs: seq<Todo>)
      modifies this
      ensures todos == xs
      ensures isLoading == old(isLoading) && error == old(error)
    {
      todos := xs;
    }

    /** `addTodoFromPeer`: dedupe by id, else append. */
    method AddTodoFromPeer(t: Todo)
      modifies this
      ensures todos == AddIfAbsent(old(todos), t)
      ensures isLoading == old(isLoading) && error == old(error)
    {
      todos := AddIfAbsent(todos, t);
    }

    /** `deleteTodoFromPeer`: filter the id out. */
    method DeleteTodoFromPeer(todoId: string)
      modifies this
      ensures todos == RemoveId(old(todos), todoId)
      ensures isLoading == old(isLoading) && error == old(error)
    {
      todos := RemoveId(todos, todoId);
    }

    /** `toggleTodoFromPeer`: replace by the record's own id. */
    method ToggleTodoFromPeer(t: Todo)
      modifies this
      ensures todos == ReplaceById(old(todos), t.id, t)
      ensures isLoading == old(isLoading) && error == old(error)
    {
      todos := ReplaceById(todos, t.id, t);
    }
  }

  /** A peer mutation as the store receives it: the `todo-added`,
      `todo-deleted` and `todo-toggled` events. */
  datatype PeerEvent = Added(todo: Todo) | Deleted(todoId: string) | Toggled(todo: Todo)

  /** The store's list after one peer event. */
  function ApplyPeer(s: seq<Todo>, e: PeerEvent): seq<Todo> {
    match e
    case Added(t) => AddIfAbsent(s, t)
    case Deleted(id) => RemoveId(s, id)
    case Toggled(t) => ReplaceById(s, t.id, t)
  }

  /** Every peer event may arrive twice (relay and direct channel); the
      second delivery, right after the first, changes nothing. */
  lemma DuplicateDeliveryIsHarmless(s: seq<Todo>, e: PeerEvent)
    ensures ApplyPeer(ApplyPeer(s, e), e) == ApplyPeer(s, e)
  {
    match e
    case Added(t) => AddIfAbsentIdempotent(s, t);
    case Deleted(id) => RemoveIdIdempotent(s, id);
    case Toggled(t) => ReplaceByIdIdempotent(s, t);
  }

  /** Every peer event keeps the list free of duplicate ids. */
  lemma PeerEventsKeepUniqueIds(s: seq<Todo>, e: PeerEvent)
    requires UniqueIds(s)
    ensures UniqueIds(ApplyPeer(s, e))
  {
    match e
    case Added(t) => AddIfAbsentKeepsUnique(s, t);
    case Deleted(id) => RemoveIdKeepsUnique(s, id);
    case Toggled(t) => ReplaceByIdKeepsIds(s, t);
  }

  /** Entries whose id the event does not name are untouched: such an
      entry is in the list afterwards exactly when it was before. */
  lemma PeerEventLeavesOthers(s: seq<Todo>, e: PeerEvent, x: Todo)
    requires x.id != (if e.Deleted? then e.todoId else e.todo.id)
    ensures x in ApplyPeer(s, e) <==> x in s
  {
    match e
    case Added(t) =>
    case Deleted(id) => RemoveIdMembers(s, id, x);
    case Toggled(t) =>
      var r := ReplaceById(s, t.id, t);
      if x in s {
        var k :| 0 <= k < |s| && s[k] == x;
        assert r[k] == x;
      }
      if x in r {
        var k :| 0 <= k < |r| && r[k] == x;
        assert s[k] == x;
      }
  }

  /** Duplicates that arrive apart are another matter: a late copy of an
      `added` that arrives after a `deleted` for the same id brings the
      task back, because no deleted ids are kept. */
  lemma StaleAddAfterDelete(s: seq<Todo>, t: Todo)
    ensures ApplyPeer(ApplyPeer(s, Deleted(t.id)), Added(t)) == RemoveId(s, t.id) + [t]
  {
    DeleteThenAddResurrects(s, t);
  }
}
